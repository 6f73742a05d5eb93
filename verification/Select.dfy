/**
 The select set operation: a loop that scans one list from a start position, copies the entries that a
 condition chooses to another list, up to a limit, and takes them out of the list it is scanning.
 The specification is a closed form over the window of entries that the scan reaches.
 */
module Select {
  import opened Options

  /** A list entry: the name of a machine, or any other value. */
  datatype Entry = Symbol(name: string) | Plain(value: int)

  /** What decides about an entry: whether its machine is known, and whether the condition holds of it. */
  datatype Condition = Condition(known: string -> bool, holds: string -> bool)
  {
    predicate Unknown(e: Entry) { e.Symbol? && !known(e.name) }
    predicate Takes(e: Entry) { e.Symbol? && holds(e.name) }
    predicate Picks(k: Kind, e: Entry) {
      match k
      case Leaving => !Takes(e)
      case Matching => Takes(e)
      case Copying(toReference) => (Takes(e) && !toReference) || e.Plain?
    }
  }

  /** The entries that stay behind, those that match, and those that are appended to the destination. */
  datatype Kind = Leaving | Matching | Copying(toReference: bool)

  // ----- the closed forms, over the entries s[lo..hi] -----

  function Filter(s: seq<Entry>, lo: nat, hi: nat, c: Condition, k: Kind): seq<Entry>
    requires hi <= |s|
  {
    if hi <= lo then []
    else if c.Picks(k, s[hi - 1]) then Filter(s, lo, hi - 1, c, k) + [s[hi - 1]]
    else Filter(s, lo, hi - 1, c, k)
  }

  function Count(s: seq<Entry>, lo: nat, hi: nat, c: Condition): nat
    requires hi <= |s|
  {
    if hi <= lo then 0 else Count(s, lo, hi - 1, c) + if c.Takes(s[hi - 1]) then 1 else 0
  }

  function Including(d: seq<Entry>, x: Entry): seq<Entry> {
    if x in d then d else d + [x]
  }

  /** The destination with the entries that are not there yet appended. */
  function AddAll(d: seq<Entry>, s: seq<Entry>, lo: nat, hi: nat, c: Condition, k: Kind): seq<Entry>
    requires hi <= |s|
  {
    if hi <= lo then d
    else if c.Picks(k, s[hi - 1]) then Including(AddAll(d, s, lo, hi - 1, c, k), s[hi - 1])
    else AddAll(d, s, lo, hi - 1, c, k)
  }

  /** removeLocal(0) when there is one, then addLocal. */
  function Replaced(locals: seq<Entry>, x: Entry): seq<Entry> {
    (if locals == [] then locals else locals[1..]) + [x]
  }

  function Refer(locals: seq<Entry>, s: seq<Entry>, lo: nat, hi: nat, c: Condition): seq<Entry>
    requires hi <= |s|
  {
    if hi <= lo then locals
    else if c.Takes(s[hi - 1]) then Replaced(Refer(locals, s, lo, hi - 1, c), s[hi - 1])
    else Refer(locals, s, lo, hi - 1, c)
  }

  /** The source list after the scan has reached e, with the matches taken out. */
  function Kept(s: seq<Entry>, start: nat, e: nat, c: Condition): seq<Entry>
    requires start <= e <= |s|
  {
    s[..start] + Filter(s, start, e, c, Leaving) + s[e..]
  }

  // ----- where the scan ends -----

  /**
   Where the scan from i ends, with room for that many more matches: behind the match that fills the
   room, in front of a name nobody knows, or at the end of the list.
   */
  function End(s: seq<Entry>, i: nat, room: nat, c: Condition): nat
    requires i <= |s|
    decreases |s| - i
  {
    if i == |s| || c.Unknown(s[i]) then i
    else if !c.Takes(s[i]) then End(s, i + 1, room, c)
    else if room <= 1 then i + 1
    else End(s, i + 1, room - 1, c)
  }

  /** e is behind the last entry of a window that has no unknown name and all the matches there is room for. */
  predicate Window(s: seq<Entry>, i: nat, e: nat, room: nat, c: Condition)
  {
    && i <= e <= |s|
    && (forall k | i <= k < e :: !c.Unknown(s[k]))
    && Count(s, i, e, c) <= room
    && if Count(s, i, e, c) == room then i < e && c.Takes(s[e - 1]) else e == |s| || c.Unknown(s[e])
  }

  lemma {:induction false} CountFirst(s: seq<Entry>, lo: nat, hi: nat, c: Condition)
    requires lo < hi <= |s|
    ensures Count(s, lo, hi, c) == Count(s, lo + 1, hi, c) + if c.Takes(s[lo]) then 1 else 0
    decreases hi
  {
    if lo + 1 < hi {
      CountFirst(s, lo, hi - 1, c);
    }
  }

  lemma {:induction false} FullWindow(s: seq<Entry>, i: nat, e: nat, c: Condition)
    requires i < |s| && !c.Unknown(s[i]) && c.Takes(s[i])
    ensures Window(s, i, e, 1, c) <==> e == i + 1
  {
    if i < e <= |s| {
      CountFirst(s, i, e, c);
    }
  }

  lemma {:induction false} NextWindow(s: seq<Entry>, i: nat, e: nat, room: nat, c: Condition)
    requires i < |s| && !c.Unknown(s[i]) && room >= 1 && (c.Takes(s[i]) ==> room >= 2)
    ensures Window(s, i, e, room, c) <==> i < e && Window(s, i + 1, e, if c.Takes(s[i]) then room - 1 else room, c)
  {
    if i < e <= |s| {
      CountFirst(s, i, e, c);
    }
  }

  /** The scan ends at the window's end, and there is only one such place. */
  lemma {:induction false} EndExact(s: seq<Entry>, i: nat, e: nat, room: nat, c: Condition)
    requires i <= |s| && room >= 1
    ensures Window(s, i, e, room, c) <==> e == End(s, i, room, c)
    decreases |s| - i
  {
    if i < |s| && !c.Unknown(s[i]) {
      if c.Takes(s[i]) && room == 1 {
        FullWindow(s, i, e, c);
      } else {
        var more := if c.Takes(s[i]) then room - 1 else room;
        NextWindow(s, i, e, room, c);
        EndExact(s, i + 1, e, more, c);
        EndExact(s, i + 1, End(s, i + 1, more, c), more, c);
      }
    }
  }

  // ----- what the closed forms promise -----

  lemma {:induction false} Snoc(s: seq<Entry>, y: Entry, x: Entry)
    ensures multiset(s + [y])[x] == multiset(s)[x] + if x == y then 1 else 0
  {
  }

  lemma {:induction false} LastOf(s: seq<Entry>, lo: nat, hi: nat, x: Entry)
    requires lo < hi <= |s|
    ensures multiset(s[lo..hi])[x] == multiset(s[lo..hi - 1])[x] + if x == s[hi - 1] then 1 else 0
  {
    assert s[lo..hi] == s[lo..hi - 1] + [s[hi - 1]];
  }

  lemma {:induction false} FilterSound(s: seq<Entry>, lo: nat, hi: nat, c: Condition, k: Kind, x: Entry)
    requires lo <= hi <= |s|
    ensures multiset(Filter(s, lo, hi, c, k))[x] == if c.Picks(k, x) then multiset(s[lo..hi])[x] else 0
    decreases hi
  {
    if lo < hi {
      FilterSound(s, lo, hi - 1, c, k, x);
      LastOf(s, lo, hi, x);
      Snoc(Filter(s, lo, hi - 1, c, k), s[hi - 1], x);
    }
  }

  /** Nothing is lost or made up: what the source loses is what matched in the window, each as often as it stood there. */
  lemma {:induction false} Partition(s: seq<Entry>, start: nat, e: nat, c: Condition, x: Entry)
    requires start <= e <= |s|
    ensures multiset(Kept(s, start, e, c))[x] + multiset(Filter(s, start, e, c, Matching))[x] == multiset(s)[x]
  {
    FilterSound(s, start, e, c, Leaving, x);
    FilterSound(s, start, e, c, Matching, x);
    assert s == s[..start] + s[start..e] + s[e..];
  }

  lemma {:induction false} CountIsLength(s: seq<Entry>, lo: nat, hi: nat, c: Condition)
    requires lo <= hi <= |s|
    ensures |Filter(s, lo, hi, c, Matching)| == Count(s, lo, hi, c)
    decreases hi
  {
    if lo < hi {
      CountIsLength(s, lo, hi - 1, c);
    }
  }

  /** The destination keeps its contents in front, and gains each copied entry once, if it was not there. */
  lemma {:induction false} AddsOnce(d: seq<Entry>, s: seq<Entry>, lo: nat, hi: nat, c: Condition, k: Kind, x: Entry)
    requires lo <= hi <= |s|
    ensures d <= AddAll(d, s, lo, hi, c, k)
    ensures multiset(AddAll(d, s, lo, hi, c, k))[x] ==
            if x in d then multiset(d)[x] else if multiset(s[lo..hi])[x] > 0 && c.Picks(k, x) then 1 else 0
    decreases hi
  {
    if lo < hi {
      AddsOnce(d, s, lo, hi - 1, c, k, x);
      LastOf(s, lo, hi, x);
      Snoc(AddAll(d, s, lo, hi - 1, c, k), s[hi - 1], x);
    }
  }

  /** When the copied entries are all new and different they arrive in order, behind the old ones. */
  lemma {:induction false} AddsInOrder(d: seq<Entry>, s: seq<Entry>, lo: nat, hi: nat, c: Condition, k: Kind)
    requires lo <= hi <= |s|
    requires forall i, j | lo <= i < j < hi && c.Picks(k, s[i]) :: s[i] != s[j]
    requires forall i | lo <= i < hi && c.Picks(k, s[i]) :: s[i] !in d
    ensures AddAll(d, s, lo, hi, c, k) == d + Filter(s, lo, hi, c, k)
    decreases hi
  {
    if lo < hi {
      AddsInOrder(d, s, lo, hi - 1, c, k);
      FilterSound(s, lo, hi - 1, c, k, s[hi - 1]);
      var xs, x := Filter(s, lo, hi - 1, c, k), s[hi - 1];
      if c.Picks(k, x) {
        assert x !in d && x !in xs;
        assert d + xs + [x] == d + (xs + [x]);
      }
    }
  }

  /** A reference to at most one machine refers to the last match. */
  lemma {:induction false} RefersToLast(locals: seq<Entry>, s: seq<Entry>, lo: nat, hi: nat, c: Condition)
    requires lo <= hi <= |s| && |locals| <= 1
    ensures var xs := Filter(s, lo, hi, c, Matching);
            Refer(locals, s, lo, hi, c) == if xs == [] then locals else [xs[|xs| - 1]]
    decreases hi
  {
    if lo < hi {
      RefersToLast(locals, s, lo, hi - 1, c);
    }
  }

  // ----- the operation -----

  /** A LIST or a REFERENCE. */
  class ListMachine {
    const isReference: bool
    var parameters: seq<Entry>
    var locals: seq<Entry>

    constructor (isReference: bool, parameters: seq<Entry>)
      ensures this.isReference == isReference && this.parameters == parameters && locals == []
    {
      this.isReference, this.parameters, this.locals := isReference, parameters, [];
    }

    /** MachineIncludesParameter, then addParameter. */
    method Include(x: Entry)
      modifies `parameters
      ensures parameters == Including(old(parameters), x)
    {
      for i := 0 to |parameters|
        invariant parameters == old(parameters) && x !in parameters[..i]
      {
        if parameters[i] == x {
          return;
        }
      }
      parameters := parameters + [x];
    }

    method Remove(i: nat)
      requires i < |parameters|
      modifies `parameters
      ensures parameters == Without(old(parameters), i)
    {
      parameters := parameters[..i] + parameters[i + 1..];
    }
  }

  datatype Outcome = Complete | Failed | Thrown

  /** Where the next entry of the original list is, in the list with the matches taken out. */
  function Cursor(s: seq<Entry>, start: nat, j: nat, c: Condition): nat
    requires j <= |s|
  {
    if j <= start then start
    else if c.Takes(s[j - 1]) then Cursor(s, start, j - 1, c)
    else Cursor(s, start, j - 1, c) + 1
  }

  function Without(s: seq<Entry>, i: nat): seq<Entry> {
    if i < |s| then s[..i] + s[i + 1..] else s
  }

  /** The source list as the loop shrinks it, one match after the other. */
  function Shrunk(s: seq<Entry>, start: nat, j: nat, c: Condition): seq<Entry>
    requires j <= |s|
  {
    if j <= start then s
    else if c.Takes(s[j - 1]) then Without(Shrunk(s, start, j - 1, c), Cursor(s, start, j - 1, c))
    else Shrunk(s, start, j - 1, c)
  }

  lemma {:induction false} CursorIs(s: seq<Entry>, start: nat, j: nat, c: Condition)
    requires start <= j <= |s|
    ensures Cursor(s, start, j, c) == start + |Filter(s, start, j, c, Leaving)|
    decreases j
  {
    if start < j {
      CursorIs(s, start, j - 1, c);
    }
  }

  /** Removing at the stuttering index is the partition of the window. */
  lemma {:induction false} ShrunkIsKept(s: seq<Entry>, start: nat, j: nat, c: Condition)
    requires start <= j <= |s|
    ensures Shrunk(s, start, j, c) == Kept(s, start, j, c)
    decreases j
  {
    if j == start {
      Whole(s, start);
    } else {
      ShrunkIsKept(s, start, j - 1, c);
      CursorIs(s, start, j - 1, c);
      if c.Takes(s[j - 1]) {
        DropAt(s[..start] + Filter(s, start, j - 1, c, Leaving), s, j - 1,
               Shrunk(s, start, j - 1, c), Cursor(s, start, j - 1, c));
      } else {
        PassBy(s[..start], Filter(s, start, j - 1, c, Leaving), s, j - 1);
      }
    }
  }

  lemma {:induction false} Whole(s: seq<Entry>, j: nat)
    requires j <= |s|
    ensures s[..j] + [] + s[j..] == s
  {
  }

  lemma {:induction false} DropAt(left: seq<Entry>, s: seq<Entry>, j: nat, r: seq<Entry>, i: nat)
    requires j < |s| && r == left + s[j..] && i == |left|
    ensures Without(r, i) == left + s[j + 1..]
  {
  }

  lemma {:induction false} PassBy(left: seq<Entry>, middle: seq<Entry>, s: seq<Entry>, j: nat)
    requires j < |s|
    ensures left + (middle + [s[j]]) + s[j + 1..] == left + middle + s[j..]
  {
  }

  lemma {:induction false} CursorFinds(s: seq<Entry>, start: nat, j: nat, c: Condition)
    requires start <= j <= |s|
    ensures |Shrunk(s, start, j, c)| - Cursor(s, start, j, c) == |s| - j
    ensures j < |s| ==> Shrunk(s, start, j, c)[Cursor(s, start, j, c)] == s[j]
  {
    ShrunkIsKept(s, start, j, c);
    CursorIs(s, start, j, c);
  }

  /** A limit below one still lets one match through: it is tested after the copy. */
  function Room(limit: int): nat {
    if limit < 1 then 1 else limit
  }

  /** The first name from i on that nobody knows, or the end of the list. */
  function FirstUnknown(s: seq<Entry>, i: nat, c: Condition): (e: nat)
    requires i <= |s|
    ensures i <= e <= |s| && (forall k | i <= k < e :: !c.Unknown(s[k])) && (e < |s| ==> c.Unknown(s[e]))
    decreases |s| - i
  {
    if i == |s| || c.Unknown(s[i]) then i else FirstUnknown(s, i + 1, c)
  }

  /**
   The matches that are copied stay within a limit exactly when the limit is at least one, or there is
   nothing to copy: no entry matches between the start and the first name that nobody knows.
   */
  lemma {:induction false} LimitKeptExactly(s: seq<Entry>, start: nat, limit: nat, c: Condition)
    requires start <= |s|
    ensures start <= End(s, start, Room(limit), c) <= |s|
    ensures |Filter(s, start, End(s, start, Room(limit), c), c, Matching)| <= limit
            <==> limit >= 1 || Count(s, start, FirstUnknown(s, start, c), c) == 0
  {
    var e, f := End(s, start, Room(limit), c), FirstUnknown(s, start, c);
    EndExact(s, start, e, Room(limit), c);
    EndExact(s, start, f, Room(limit), c);
    CountIsLength(s, start, e, c);
    if limit == 0 && Count(s, start, e, c) == 0 {
      assert e == f;
    }
  }

  /** With a limit of 0 a single entry that matches is copied. */
  lemma {:induction false} LimitZeroCopiesOne(name: string, c: Condition)
    requires c.known(name) && c.holds(name)
    ensures var s := [Symbol(name)];
            End(s, 0, Room(0), c) == 1 && Filter(s, 0, 1, c, Matching) == [Symbol(name)]
  {
    assert Filter([Symbol(name)], 0, 0, c, Matching) == [];
  }

  /** The lists as the scan found them. */
  datatype Before = Before(source: seq<Entry>, dest: seq<Entry>, locals: seq<Entry>, start: nat)

  /** The lists and the index when the scan has passed the entries of the original list in front of j. */
  ghost predicate At(source: ListMachine, dest: ListMachine, i: nat, was: Before, j: nat, remove: bool, c: Condition)
    reads source, dest
  {
    && was.start <= j <= |was.source|
    && source.parameters == (if remove then Shrunk(was.source, was.start, j, c) else was.source)
    && i == (if remove then Cursor(was.source, was.start, j, c) else j)
    && (dest != source ==>
          dest.parameters == AddAll(was.dest, was.source, was.start, j, c, Copying(dest.isReference)))
    && dest.locals == if dest.isReference then Refer(was.locals, was.source, was.start, j, c) else was.locals
  }

  /** The body of the loop, for an entry whose machine is known; whether it matched. */
  method Visit(source: ListMachine, dest: ListMachine, i: nat, remove: bool, c: Condition, ghost was: Before, ghost j: nat)
    returns (taken: bool)
    requires source == dest ==> !dest.isReference
    requires At(source, dest, i, was, j, remove, c) && i < |source.parameters|
    modifies source`parameters, dest
    ensures j < |was.source| && taken == c.Takes(was.source[j])
    ensures At(source, dest, if taken && remove then i else i + 1, was, j + 1, remove, c)
  {
    CursorFinds(was.source, was.start, j, c);
    var a := source.parameters[i];
    taken := a.Symbol? && c.holds(a.name);
    if taken && dest.isReference {
      dest.locals := Replaced(dest.locals, a);
    } else if taken || a.Plain? {
      dest.Include(a);
    }
    if taken && remove {
      source.Remove(i);
    }
  }

  lemma {:induction false} AtFinds(source: ListMachine, dest: ListMachine, i: nat, was: Before, j: nat, remove: bool,
                                   c: Condition)
    requires At(source, dest, i, was, j, remove, c)
    ensures i < |source.parameters| <==> j < |was.source|
    ensures j < |was.source| ==> source.parameters[i] == was.source[j]
  {
    CursorFinds(was.source, was.start, j, c);
  }

  lemma {:induction false} EndNext(s: seq<Entry>, j: nat, left: nat, c: Condition)
    requires j <= |s| && left >= 1
    ensures j == |s| || c.Unknown(s[j]) ==> End(s, j, left, c) == j
    ensures j < |s| && !c.Unknown(s[j]) && !c.Takes(s[j]) ==> End(s, j, left, c) == End(s, j + 1, left, c)
    ensures j < |s| && !c.Unknown(s[j]) && c.Takes(s[j]) ==>
              End(s, j, left, c) == if left == 1 then j + 1 else End(s, j + 1, left - 1, c)
  {
  }

  /** The loop of SelectSetOperation::doOperation. */
  method Scan(source: ListMachine, dest: ListMachine, start: nat, limit: int, remove: bool, c: Condition)
    returns (r: Outcome, i: nat)
    requires start <= |source.parameters| && (source == dest ==> !dest.isReference)
    modifies source`parameters, dest
    ensures var was := Before(old(source.parameters), old(dest.parameters), old(dest.locals), start);
            var e := End(was.source, start, Room(limit), c);
            && At(source, dest, i, was, e, remove, c)
            && r == if Count(was.source, start, e, c) < Room(limit) && e < |was.source| then Thrown else Complete
  {
    ghost var was := Before(source.parameters, dest.parameters, dest.locals, start);
    ghost var s, left, j := source.parameters, Room(limit), start;
    var copied := 0;
    i := start;
    while i < |source.parameters|
      invariant At(source, dest, i, was, j, remove, c)
      invariant copied == Count(s, start, j, c)
      invariant left >= 1 && copied + left == Room(limit) && End(s, start, Room(limit), c) == End(s, j, left, c)
      decreases |source.parameters| - i
    {
      AtFinds(source, dest, i, was, j, remove, c);
      EndNext(s, j, left, c);
      if c.Unknown(source.parameters[i]) {
        return Thrown, i;
      }
      var taken := Visit(source, dest, i, remove, c, was, j);
      j := j + 1;
      if taken && remove {
      } else {
        i := i + 1;
      }
      if taken {
        copied := copied + 1;
        left := left - 1;
        if copied >= limit {
          return Complete, i;
        }
      }
    }
    AtFinds(source, dest, i, was, j, remove, c);
    EndNext(s, j, left, c);
    return Complete, i;
  }

  /** The count of a select: a number, the name of a property with its value, or some other value. */
  datatype HowMany = Number(n: int) | Property(value: Option<int>) | Other(value: Option<int>)

  /** The start index: unsigned int i = sp, where -1 stands for no position. */
  function StartIndex(startPos: Option<int>): nat {
    match startPos
    case None => 0
    case Some(sp) => if sp == -1 then 0 else sp % 0x1_0000_0000
  }

  /** How many matches to copy: the count, or from the two positions when it is -1, or else no limit. */
  function Limit(startPos: Option<int>, endPos: Option<int>, count: HowMany, size: nat): int {
    var sp := if startPos.None? || startPos.value == -1 then 0 else startPos.value;
    var c := if count == Number(-1) && endPos.Some? && endPos.value != -1 then Number(endPos.value - sp + 1) else count;
    match c
    case Number(n) => if n < 0 then size else n
    case Property(v) => if v.None? then size else v.value
    case Other(v) => if v.None? then size else v.value
  }

  /**
   A scan of s from start for at most k matches ends at e with outcome r. It meets the matches up to the first
   unknown name, but no more than k of them (one is let through in any case), and ends behind the last or there.
   */
  predicate Bounded(s: seq<Entry>, start: nat, e: nat, k: int, c: Condition, r: Outcome) {
    && start <= e <= |s|
    && var most, unknown := if k < 1 then 1 else k, FirstUnknown(s, start, c);
       var matches := Count(s, start, unknown, c);
       if most <= matches then
         e <= unknown && Count(s, start, e, c) == most && e > start && c.Takes(s[e - 1]) && r == Complete
       else
         e == unknown && r == if unknown < |s| then Thrown else Complete
  }

  /** A scan for all the matches up to the first unknown name. */
  predicate Unbounded(s: seq<Entry>, start: nat, e: nat, c: Condition, r: Outcome) {
    && start <= |s|
    && e == FirstUnknown(s, start, c)
    && r == if e < |s| then Thrown else Complete
  }

  /** How far a scan goes for what is asked: a count, two positions, the value of a property, or everything. */
  predicate Asked(s: seq<Entry>, startPos: Option<int>, endPos: Option<int>, count: HowMany,
                  start: nat, e: nat, c: Condition, r: Outcome) {
    match count
    case Number(k) =>
      if k >= 0 then Bounded(s, start, e, k, c, r)
      else if k == -1 && endPos.Some? && endPos.value != -1 then
        var sp := if startPos == None || startPos == Some(-1) then 0 else startPos.value;
        if endPos.value >= sp - 1 then Bounded(s, start, e, endPos.value - sp + 1, c, r)
        else Unbounded(s, start, e, c, r)
      else Unbounded(s, start, e, c, r)
    case Property(v) => if v.Some? then Bounded(s, start, e, v.value, c, r) else Unbounded(s, start, e, c, r)
    case Other(v) => if v.Some? then Bounded(s, start, e, v.value, c, r) else Unbounded(s, start, e, c, r)
  }

  lemma {:induction false} CountGrows(s: seq<Entry>, lo: nat, mid: nat, hi: nat, c: Condition)
    requires lo <= mid <= hi <= |s|
    ensures Count(s, lo, mid, c) <= Count(s, lo, hi, c) <= Count(s, lo, mid, c) + (hi - mid)
    decreases hi
  {
    if mid < hi {
      CountGrows(s, lo, mid, hi - 1, c);
    }
  }

  lemma {:induction false} EndBounded(s: seq<Entry>, start: nat, e: nat, k: int, c: Condition, r: Outcome)
    requires start <= |s| && e == End(s, start, Room(k), c) && e <= |s|
    requires r == if Count(s, start, e, c) < Room(k) && e < |s| then Thrown else Complete
    ensures Bounded(s, start, e, k, c, r)
  {
    EndExact(s, start, e, Room(k), c);
    var unknown := FirstUnknown(s, start, c);
    assert e <= unknown;
    CountGrows(s, start, e, unknown, c);
  }

  lemma {:induction false} EndUnbounded(s: seq<Entry>, start: nat, e: nat, c: Condition, r: Outcome)
    requires start <= |s| && e == End(s, start, Room(|s|), c) && e <= |s|
    requires r == if Count(s, start, e, c) < Room(|s|) && e < |s| then Thrown else Complete
    ensures Unbounded(s, start, e, c, r)
  {
    EndExact(s, start, e, Room(|s|), c);
    CountGrows(s, start, start, e, c);
  }

  lemma {:induction false} LimitAsked(s: seq<Entry>, startPos: Option<int>, endPos: Option<int>, count: HowMany,
                                      start: nat, e: nat, c: Condition, r: Outcome)
    requires start <= |s| && e == End(s, start, Room(Limit(startPos, endPos, count, |s|)), c) && e <= |s|
    requires r == if Count(s, start, e, c) < Room(Limit(startPos, endPos, count, |s|)) && e < |s| then Thrown else Complete
    ensures Asked(s, startPos, endPos, count, start, e, c, r)
  {
    var limit := Limit(startPos, endPos, count, |s|);
    EndBounded(s, start, e, limit, c, r);
    if limit == |s| {
      EndUnbounded(s, start, e, c, r);
    }
  }

  /** SelectSetOperation::doOperation. */
  method DoOperation(source: ListMachine?, dest: ListMachine, startPos: Option<int>, endPos: Option<int>,
                     count: HowMany, remove: bool, c: Condition)
    returns (r: Outcome, ghost start: nat, ghost e: nat)
    requires source == dest ==> !dest.isReference
    modifies source, dest
    ensures startPos == None || startPos == Some(-1) ==> start == 0
    ensures forall sp | startPos == Some(sp) && 0 <= sp < 0x1_0000_0000 :: start == sp
    ensures forall sp | startPos == Some(sp) && sp != -1 :: start == sp % 0x1_0000_0000
    ensures r == Failed <==> source == null
    ensures source == null ==> dest.parameters == old(dest.parameters) && dest.locals == old(dest.locals)
    ensures source != null ==>
              var s := old(source.parameters);
              if start > |s| then
                && source.parameters == s && dest.parameters == old(dest.parameters)
                && dest.locals == old(dest.locals) && r == Complete
              else
                && start <= e <= |s|
                && source.parameters == (if remove then Kept(s, start, e, c) else s)
                && (dest != source ==>
                      dest.parameters == AddAll(old(dest.parameters), s, start, e, c, Copying(dest.isReference)))
                && dest.locals == (if dest.isReference then Refer(old(dest.locals), s, start, e, c) else old(dest.locals))
    ensures source != null && start <= old(|source.parameters|) ==>
              Asked(old(source.parameters), startPos, endPos, count, start, e, c, r)
  {
    start, e := StartIndex(startPos), 0;
    if source == null {
      r := Failed;
      return;
    }
    var first := StartIndex(startPos);
    if first > |source.parameters| {
      r := Complete;
      return;
    }
    ghost var s := source.parameters;
    var limit := Limit(startPos, endPos, count, |source.parameters|);
    var i;
    r, i := Scan(source, dest, first, limit, remove, c);
    e := End(s, first, Room(limit), c);
    ShrunkIsKept(s, first, e, c);
    LimitAsked(s, startPos, endPos, count, first, e, c, r);
  }
}
