/**
 Intrusive circular lists. A ring is the sequence of nodes met by following `next` from a head back to
 it, with `prev` the inverse; the list it stands for is the ring without its head. The operations rewrite
 a few pointers; the specification says what sequence the ring reads as afterwards.
 */
module IntrusiveList {

  class ListHead {
    var next: ListHead?
    var prev: ListHead?

    /** INIT_LIST_HEAD. */
    constructor ()
      ensures Ring([this])
    {
      new;
      next, prev := this, this;
    }
  }

  ghost predicate Linked(a: ListHead, b: ListHead)
    reads a`next, b`prev
  {
    a.next == b && b.prev == a
  }

  predicate Distinct(r: seq<ListHead>) {
    forall i, j | 0 <= i < j < |r| :: r[i] != r[j]
  }

  /** The node after position i of a ring. */
  function Succ(r: seq<ListHead>, i: nat): ListHead
    requires i < |r|
  {
    if i + 1 < |r| then r[i + 1] else r[0]
  }

  /** The node before it. */
  function Pred(r: seq<ListHead>, k: nat): ListHead
    requires k < |r|
  {
    if k > 0 then r[k - 1] else r[|r| - 1]
  }

  ghost predicate Ring(r: seq<ListHead>)
    reads r
  {
    && r != []
    && Distinct(r)
    && forall i: nat | i < |r| :: Linked(r[i], Succ(r, i))
  }

  /** Insert a new entry between two known consecutive entries: __list_add. */
  method Insert(entry: ListHead, prev: ListHead, next: ListHead)
    requires entry != prev && entry != next
    modifies entry, prev`next, next`prev
    ensures Linked(prev, entry) && Linked(entry, next)
  {
    next.prev := entry;
    entry.next := next;
    entry.prev := prev;
    prev.next := entry;
  }

  /** list_add: the new entry comes right after the head. */
  method Add(entry: ListHead, head: ListHead, ghost r: seq<ListHead>)
    requires Ring(r) && r[0] == head && entry !in r
    modifies entry, head`next, Succ(r, 0)`prev
    ensures Ring([head, entry] + r[1..])
  {
    ghost var q := [head, entry] + r[1..];
    assert Linked(r[0], Succ(r, 0));
    Insert(entry, head, head.next);
    forall i: nat | i < |q|
      ensures Linked(q[i], Succ(q, i))
    {
      if i >= 2 {
        assert Linked(r[i - 1], Succ(r, i - 1));
      }
    }
  }

  /** list_add_tail: the new entry comes right before the head. */
  method AddTail(entry: ListHead, head: ListHead, ghost r: seq<ListHead>)
    requires Ring(r) && r[0] == head && entry !in r
    modifies entry, head`prev, Pred(r, 0)`next
    ensures Ring(r + [entry])
  {
    ghost var q := r + [entry];
    assert Linked(r[|r| - 1], Succ(r, |r| - 1));
    Insert(entry, head.prev, head);
    forall i: nat | i < |q|
      ensures Linked(q[i], Succ(q, i))
    {
      if i < |r| - 1 {
        assert Linked(r[i], Succ(r, i));
      }
    }
  }

  /** The ring without the node at position k. */
  function Without(r: seq<ListHead>, k: nat): seq<ListHead>
    requires k < |r|
  {
    r[..k] + r[k + 1..]
  }

  /** Make two entries point to each other: __list_del. */
  method Bypass(prev: ListHead, next: ListHead)
    modifies prev`next, next`prev
    ensures Linked(prev, next)
  {
    next.prev := prev;
    prev.next := next;
  }

  /** The common part of list_del, list_del_init and list_move: the neighbours of an entry are joined. */
  method Unlink(entry: ListHead, ghost r: seq<ListHead>, ghost k: nat)
    requires Ring(r) && k < |r| && r[k] == entry
    modifies Pred(r, k)`next, Succ(r, k)`prev
    ensures |r| == 1 || Ring(Without(r, k))
  {
    ghost var q := Without(r, k);
    ghost var p := if k > 0 then k - 1 else |r| - 1;
    assert Linked(r[p], Succ(r, p)) && Linked(r[k], Succ(r, k));
    Bypass(entry.prev, entry.next);
    forall i: nat | i < |q|
      ensures Linked(q[i], Succ(q, i))
    {
      var j := if i < k then i else i + 1;
      assert Linked(r[j], Succ(r, j)) || j == p;
    }
  }

  // ----- moving and splicing -----

  ghost predicate Disjoint(a: seq<ListHead>, b: seq<ListHead>) {
    forall i, j | 0 <= i < |a| && 0 <= j < |b| :: a[i] != b[j]
  }

  /** __list_splice: the nodes of ring a, without its head, come right after the head of ring b. */
  method Join(list: ListHead, head: ListHead, ghost a: seq<ListHead>, ghost b: seq<ListHead>)
    requires Ring(a) && a[0] == list && |a| > 1 && Ring(b) && b[0] == head && Disjoint(a, b)
    modifies Succ(a, 0)`prev, Pred(a, 0)`next, head`next, Succ(b, 0)`prev
    ensures Ring([head] + a[1..] + b[1..])
  {
    ghost var q := [head] + a[1..] + b[1..];
    assert Linked(a[0], Succ(a, 0)) && Linked(a[|a| - 1], Succ(a, |a| - 1)) && Linked(b[0], Succ(b, 0));
    var first, last, at := list.next, list.prev, head.next;
    first.prev := head;
    head.next := first;
    last.next := at;
    at.prev := last;
    forall i: nat | i < |q|
      ensures Linked(q[i], Succ(q, i))
    {
      if 0 < i < |a| - 1 {
        assert Linked(a[i], Succ(a, i));
      } else if i >= |a| {
        assert Linked(b[i - |a| + 1], Succ(b, i - |a| + 1));
      }
    }
  }

  /** list_empty. */
  method IsEmpty(head: ListHead, ghost r: seq<ListHead>) returns (empty: bool)
    requires Ring(r) && r[0] == head
    ensures empty <==> |r| == 1
  {
    assert Linked(r[0], Succ(r, 0));
    return head.next == head;
  }

  /** list_splice: an empty list changes nothing; otherwise the spliced head is no longer a list. */
  method Splice(list: ListHead, head: ListHead, ghost a: seq<ListHead>, ghost b: seq<ListHead>)
    requires Ring(a) && a[0] == list && Ring(b) && b[0] == head && Disjoint(a, b)
    modifies Succ(a, 0)`prev, Pred(a, 0)`next, head`next, Succ(b, 0)`prev
    ensures Ring([head] + a[1..] + b[1..]) && (|a| == 1 ==> Ring(a))
  {
    var empty := IsEmpty(list, a);
    if !empty {
      Join(list, head, a, b);
    } else {
      assert [head] + a[1..] + b[1..] == b;
    }
  }

  /** A ring may be read from any of its nodes. */
  lemma {:induction false} Rotate(r: seq<ListHead>, k: nat)
    requires Ring(r) && k < |r|
    ensures Ring(r[k..] + r[..k])
  {
    var q := r[k..] + r[..k];
    forall i: nat | i < |q|
      ensures Linked(q[i], Succ(q, i))
    {
      var j := if i < |r| - k then i + k else i - (|r| - k);
      assert Linked(r[j], Succ(r, j));
    }
  }

  // ----- any number of lists -----

  /** The lists of the program: for each head its ring, and for each node the head of the ring it is in. */
  datatype World = World(rings: map<ListHead, seq<ListHead>>, owner: map<ListHead, ListHead>)

  /** The ring starts at its head and all its nodes belong to it, so that no node is in two rings. */
  ghost predicate Owns(w: World, h: ListHead)
    requires h in w.rings
  {
    var r := w.rings[h];
    && r != [] && r[0] == h
    && forall x | x in r :: x in w.owner && w.owner[x] == h
  }

  ghost predicate WellFormed(w: World)
    reads w.owner.Keys
  {
    forall h | h in w.rings :: Owns(w, h) && Ring(w.rings[h])
  }

  ghost function Index(r: seq<ListHead>, x: ListHead): (k: nat)
    requires x in r
    ensures k < |r| && r[k] == x
  {
    var k: nat :| k < |r| && r[k] == x; k
  }

  ghost function Empty(w: World, h: ListHead): World {
    World(w.rings[h := [h]], w.owner[h := h])
  }

  ghost function Stacked(w: World, e: ListHead, h: ListHead): World
    requires h in w.rings && w.rings[h] != []
  {
    World(w.rings[h := [h, e] + w.rings[h][1..]], w.owner[e := h])
  }

  ghost function Queued(w: World, e: ListHead, h: ListHead): World
    requires h in w.rings
  {
    World(w.rings[h := w.rings[h] + [e]], w.owner[e := h])
  }

  /** An entry that is in a list, and is not its head. */
  ghost predicate IsEntry(w: World, e: ListHead) {
    e in w.owner && w.owner[e] != e && w.owner[e] in w.rings && e in w.rings[w.owner[e]]
  }

  /** The ring of h without the one place at which e stood; every other ring is as it was. */
  ghost predicate TakenOut(rings: map<ListHead, seq<ListHead>>, e: ListHead, h: ListHead,
                           rest: map<ListHead, seq<ListHead>>) {
    && h in rings
    && exists k :: 0 <= k < |rings[h]| && rings[h][k] == e && rest == rings[h := rings[h][..k] + rings[h][k + 1..]]
  }

  ghost function Removed(w: World, e: ListHead): World
    requires IsEntry(w, e)
  {
    var r := w.rings[w.owner[e]];
    World(w.rings[w.owner[e] := Without(r, Index(r, e))], w.owner - {e})
  }

  /** The entries of a list come to stand in front of another's, and its head is in no list. */
  ghost function Spliced(w: World, l: ListHead, h: ListHead): World
    requires l in w.rings && h in w.rings && w.rings[l] != [] && w.rings[h] != []
  {
    var a, b := w.rings[l], w.rings[h];
    if |a| == 1 then w
    else World(w.rings[h := [h] + a[1..] + b[1..]] - {l},
               (map x | x in w.owner :: if w.owner[x] == l then h else w.owner[x]) - {l})
  }

  /** INIT_LIST_HEAD on a node that is in no list. */
  method Init(head: ListHead, ghost w: World) returns (ghost v: World)
    requires WellFormed(w) && head !in w.owner
    modifies head
    ensures WellFormed(v) && v == Empty(w, head)
    ensures v.rings == w.rings[head := [head]]
  {
    v := Empty(w, head);
    head.next, head.prev := head, head;
    forall k | k in v.rings
      ensures Owns(v, k) && Ring(v.rings[k])
    {
      if k != head {
        assert Owns(w, k) && old(Ring(w.rings[k]));
        assert head !in w.rings[k];
      }
    }
  }

  method AddTo(entry: ListHead, head: ListHead, ghost w: World) returns (ghost v: World)
    requires WellFormed(w) && head in w.rings && entry !in w.owner
    modifies entry, w.owner.Keys
    ensures w.rings[head] != []
    ensures WellFormed(v) && v == Stacked(w, entry, head)
    ensures v.rings == w.rings[head := [head, entry] + w.rings[head][1..]]
  {
    ghost var r := w.rings[head];
    assert Owns(w, head);
    v := Stacked(w, entry, head);
    Add(entry, head, r);
    forall k | k in v.rings
      ensures Owns(v, k) && Ring(v.rings[k])
    {
      if k != head {
        assert Owns(w, k) && old(Ring(w.rings[k]));
        assert entry !in w.rings[k] && head !in w.rings[k] && Succ(r, 0) !in w.rings[k];
      }
    }
  }

  method AddTailTo(entry: ListHead, head: ListHead, ghost w: World) returns (ghost v: World)
    requires WellFormed(w) && head in w.rings && entry !in w.owner
    modifies entry, w.owner.Keys
    ensures WellFormed(v) && v == Queued(w, entry, head)
    ensures v.rings == w.rings[head := w.rings[head] + [entry]]
  {
    ghost var r := w.rings[head];
    assert Owns(w, head);
    v := Queued(w, entry, head);
    AddTail(entry, head, r);
    forall k | k in v.rings
      ensures Owns(v, k) && Ring(v.rings[k])
    {
      if k != head {
        assert Owns(w, k) && old(Ring(w.rings[k]));
        assert entry !in w.rings[k] && head !in w.rings[k] && Pred(r, 0) !in w.rings[k];
      }
    }
  }

  lemma {:induction false} RemovedOwns(w: World, e: ListHead, k: ListHead)
    requires IsEntry(w, e) && k in w.rings && Owns(w, k) && Owns(w, w.owner[e]) && Distinct(w.rings[w.owner[e]])
    ensures Owns(Removed(w, e), k)
  {
    if k == w.owner[e] {
      var r := w.rings[k];
      var j := Index(r, e);
      assert forall x | x in Without(r, j) :: x in r && x != e;
    }
  }

  method UnlinkFrom(entry: ListHead, ghost w: World) returns (ghost v: World)
    requires WellFormed(w) && IsEntry(w, entry)
    modifies w.owner.Keys
    ensures WellFormed(v) && v == Removed(w, entry)
    ensures TakenOut(w.rings, entry, w.owner[entry], v.rings)
  {
    ghost var h := w.owner[entry];
    ghost var r := w.rings[h];
    ghost var j := Index(r, entry);
    assert Owns(w, h) && j != 0;
    v := Removed(w, entry);
    Unlink(entry, r, j);
    forall k | k in v.rings
      ensures Owns(v, k) && Ring(v.rings[k])
    {
      assert Owns(w, k) && old(Ring(w.rings[k]));
      RemovedOwns(w, entry, k);
      if k != h {
        assert Pred(r, j) !in w.rings[k] && Succ(r, j) !in w.rings[k];
      }
    }
  }

  lemma {:induction false} OwnersApart(w: World, h: ListHead, k: ListHead)
    requires h in w.rings && k in w.rings && Owns(w, h) && Owns(w, k) && h != k
    ensures Disjoint(w.rings[h], w.rings[k])
  {
    var a, b := w.rings[h], w.rings[k];
    forall i, j | 0 <= i < |a| && 0 <= j < |b|
      ensures a[i] != b[j]
    {
      assert w.owner[a[i]] == h && w.owner[b[j]] == k;
    }
  }

  lemma {:induction false} SplicedOwns(w: World, l: ListHead, h: ListHead, k: ListHead)
    requires l in w.rings && h in w.rings && k in w.rings && l != h && Owns(w, l) && Owns(w, h) && Owns(w, k)
    requires Distinct(w.rings[l]) && k in Spliced(w, l, h).rings
    ensures Owns(Spliced(w, l, h), k)
  {
    var a, b := w.rings[l], w.rings[h];
    if k == h && |a| > 1 {
      forall x | x in [h] + a[1..] + b[1..]
        ensures x in w.owner && x != l && (w.owner[x] == l || w.owner[x] == h)
      {
        assert x == h || x in a[1..] || x in b[1..];
      }
    }
  }

  method SpliceTo(list: ListHead, head: ListHead, ghost w: World) returns (ghost v: World)
    requires WellFormed(w) && list in w.rings && head in w.rings && list != head
    modifies w.owner.Keys
    ensures WellFormed(v) && v == Spliced(w, list, head)
    ensures w.rings[list] != [] && w.rings[head] != []
    ensures v.rings == if |w.rings[list]| == 1 then w.rings
                       else w.rings[head := [head] + w.rings[list][1..] + w.rings[head][1..]] - {list}
  {
    ghost var a, b := w.rings[list], w.rings[head];
    assert Owns(w, list) && Owns(w, head);
    OwnersApart(w, list, head);
    v := Spliced(w, list, head);
    Splice(list, head, a, b);
    forall k | k in v.rings
      ensures Owns(v, k) && Ring(v.rings[k])
    {
      assert Owns(w, k) && old(Ring(w.rings[k]));
      SplicedOwns(w, list, head, k);
      if k == head {
        assert |a| == 1 ==> [head] + a[1..] + b[1..] == b;
      } else if k == list {
      } else {
        assert Succ(a, 0) !in w.rings[k] && Pred(a, 0) !in w.rings[k] && head !in w.rings[k] && Succ(b, 0) !in w.rings[k];
      }
    }
  }

  // ----- the operations of the interface, on any lists -----

  /** list_del: the entry's pointers are poisoned, here null. */
  method Del(entry: ListHead, ghost w: World) returns (ghost v: World)
    requires WellFormed(w) && IsEntry(w, entry)
    modifies w.owner.Keys
    ensures WellFormed(v) && v == Removed(w, entry) && entry.next == null && entry.prev == null
    ensures TakenOut(w.rings, entry, w.owner[entry], v.rings)
  {
    v := UnlinkFrom(entry, w);
    entry.next, entry.prev := null, null;
  }

  /** list_del_init: the entry becomes a list of its own. */
  method DelInit(entry: ListHead, ghost w: World) returns (ghost v: World)
    requires WellFormed(w) && IsEntry(w, entry)
    modifies w.owner.Keys
    ensures WellFormed(v) && v == Empty(Removed(w, entry), entry)
    ensures exists rest :: TakenOut(w.rings, entry, w.owner[entry], rest) && v.rings == rest[entry := [entry]]
  {
    ghost var rest := UnlinkFrom(entry, w);
    v := Init(entry, rest);
    assert TakenOut(w.rings, entry, w.owner[entry], rest.rings) && v.rings == rest.rings[entry := [entry]];
  }

  /** list_move: the entry goes to the front of a list, which may be the one it is in. */
  method Move(entry: ListHead, head: ListHead, ghost w: World) returns (ghost v: World)
    requires WellFormed(w) && IsEntry(w, entry) && head in w.rings
    modifies w.owner.Keys
    ensures Removed(w, entry).rings[head] != []
    ensures WellFormed(v) && v == Stacked(Removed(w, entry), entry, head)
    ensures exists rest ::
              && TakenOut(w.rings, entry, w.owner[entry], rest) && head in rest && rest[head] != []
              && v.rings == rest[head := [head, entry] + rest[head][1..]]
  {
    ghost var rest := UnlinkFrom(entry, w);
    assert Owns(rest, head);
    v := AddTo(entry, head, rest);
    assert TakenOut(w.rings, entry, w.owner[entry], rest.rings);
  }

  /** list_move_tail. */
  method MoveTail(entry: ListHead, head: ListHead, ghost w: World) returns (ghost v: World)
    requires WellFormed(w) && IsEntry(w, entry) && head in w.rings
    modifies w.owner.Keys
    ensures WellFormed(v) && v == Queued(Removed(w, entry), entry, head)
    ensures exists rest ::
              && TakenOut(w.rings, entry, w.owner[entry], rest) && head in rest
              && v.rings == rest[head := rest[head] + [entry]]
  {
    ghost var rest := UnlinkFrom(entry, w);
    v := AddTailTo(entry, head, rest);
    assert TakenOut(w.rings, entry, w.owner[entry], rest.rings);
  }

  lemma {:induction false} PutBack<K, V>(m: map<K, V>, k: K, v: V)
    ensures (m - {k})[k := v] == m[k := v]
  {}

  /** list_splice_init: the spliced head becomes an empty list. */
  method SpliceInit(list: ListHead, head: ListHead, ghost w: World) returns (ghost v: World)
    requires WellFormed(w) && list in w.rings && head in w.rings && list != head
    modifies w.owner.Keys
    ensures Owns(w, list) && Owns(w, head)
    ensures WellFormed(v) && v == if |w.rings[list]| == 1 then w else Empty(Spliced(w, list, head), list)
    ensures v.rings == if |w.rings[list]| == 1 then w.rings
                       else w.rings[head := [head] + w.rings[list][1..] + w.rings[head][1..]][list := [list]]
  {
    assert Owns(w, list) && Owns(w, head);
    var empty := IsEmpty(list, w.rings[list]);
    v := SpliceTo(list, head, w);
    if !empty {
      PutBack(w.rings[head := [head] + w.rings[list][1..] + w.rings[head][1..]], list, [list]);
      v := Init(list, v);
    }
  }

  // ----- what moving and splicing keep -----

  lemma {:induction false} WithoutOne(r: seq<ListHead>, k: nat)
    requires k < |r|
    ensures multiset(Without(r, k)) + multiset{r[k]} == multiset(r)
  {
    assert r == r[..k] + [r[k]] + r[k + 1..];
  }

  lemma {:induction false} InFront(r: seq<ListHead>, e: ListHead)
    requires r != []
    ensures multiset([r[0], e] + r[1..]) == multiset(r) + multiset{e}
  {
    assert r == [r[0]] + r[1..];
  }

  /** A move keeps the elements of the two lists together, and every other list as it was. */
  lemma {:induction false} MoveKeeps(w: World, e: ListHead, h: ListHead, k: ListHead)
    requires IsEntry(w, e) && h in w.rings && k in w.rings && Removed(w, e).rings[h] != [] && Removed(w, e).rings[h][0] == h
    ensures var v, o := Stacked(Removed(w, e), e, h), w.owner[e];
            && (o == h ==> multiset(v.rings[h]) == multiset(w.rings[h]))
            && (o != h ==> multiset(v.rings[h]) + multiset(v.rings[o]) == multiset(w.rings[h]) + multiset(w.rings[o]))
            && (k != o && k != h ==> v.rings[k] == w.rings[k])
  {
    var o := w.owner[e];
    var j := Index(w.rings[o], e);
    WithoutOne(w.rings[o], j);
    InFront(Removed(w, e).rings[h], e);
  }

  /** A splice reads as the spliced entries followed by the old contents. */
  lemma {:induction false} SpliceReads(w: World, l: ListHead, h: ListHead)
    requires l in w.rings && h in w.rings && l != h && Owns(w, l) && Owns(w, h)
    ensures Spliced(w, l, h).rings[h][1..] == w.rings[l][1..] + w.rings[h][1..]
  {
  }

  // ----- any sequence of operations -----

  datatype Op =
    | OpInit(h: ListHead)
    | OpAdd(e: ListHead, h: ListHead)
    | OpAddTail(e: ListHead, h: ListHead)
    | OpDel(e: ListHead)
    | OpDelInit(e: ListHead)
    | OpMove(e: ListHead, h: ListHead)
    | OpMoveTail(e: ListHead, h: ListHead)
    | OpSplice(l: ListHead, h: ListHead)
    | OpSpliceInit(l: ListHead, h: ListHead)

  /** Heads are heads of lists, entries are in lists or in none as the operation needs. */
  ghost predicate Legal(w: World, op: Op) {
    match op
    case OpInit(h) => h !in w.owner
    case OpAdd(e, h) => h in w.rings && w.rings[h] != [] && e !in w.owner
    case OpAddTail(e, h) => h in w.rings && e !in w.owner
    case OpDel(e) => IsEntry(w, e)
    case OpDelInit(e) => IsEntry(w, e)
    case OpMove(e, h) => IsEntry(w, e) && h in w.rings && Removed(w, e).rings[h] != []
    case OpMoveTail(e, h) => IsEntry(w, e) && h in w.rings
    case OpSplice(l, h) => l in w.rings && h in w.rings && l != h && w.rings[l] != [] && w.rings[h] != []
    case OpSpliceInit(l, h) => l in w.rings && h in w.rings && l != h && w.rings[l] != [] && w.rings[h] != []
  }

  ghost function Next(w: World, op: Op): World
    requires Legal(w, op)
  {
    match op
    case OpInit(h) => Empty(w, h)
    case OpAdd(e, h) => Stacked(w, e, h)
    case OpAddTail(e, h) => Queued(w, e, h)
    case OpDel(e) => Removed(w, e)
    case OpDelInit(e) => Empty(Removed(w, e), e)
    case OpMove(e, h) => Stacked(Removed(w, e), e, h)
    case OpMoveTail(e, h) => Queued(Removed(w, e), e, h)
    case OpSplice(l, h) => Spliced(w, l, h)
    case OpSpliceInit(l, h) => if |w.rings[l]| == 1 then w else Empty(Spliced(w, l, h), l)
  }

  ghost predicate AllLegal(w: World, ops: seq<Op>)
    decreases |ops|
  {
    ops == [] || (Legal(w, ops[0]) && AllLegal(Next(w, ops[0]), ops[1..]))
  }

  ghost function Run(w: World, ops: seq<Op>): World
    requires AllLegal(w, ops)
    decreases |ops|
  {
    if ops == [] then w else Run(Next(w, ops[0]), ops[1..])
  }

  ghost function Touched(op: Op): ListHead {
    match op
    case OpInit(h) => h
    case OpAdd(e, _) => e
    case OpAddTail(e, _) => e
    case OpDel(e) => e
    case OpDelInit(e) => e
    case OpMove(e, _) => e
    case OpMoveTail(e, _) => e
    case OpSplice(l, _) => l
    case OpSpliceInit(l, _) => l
  }

  // ----- the lists as plain sequences -----

  /** The entries of each list, by head. */
  type Lists = map<ListHead, seq<ListHead>>

  function Entries(r: seq<ListHead>): seq<ListHead> {
    if r == [] then [] else r[1..]
  }

  ghost function Contents(w: World): Lists {
    map h | h in w.rings :: Entries(w.rings[h])
  }

  function Of(lists: Lists, h: ListHead): seq<ListHead> {
    if h in lists then lists[h] else []
  }

  function Drop(s: seq<ListHead>, e: ListHead): seq<ListHead> {
    if s == [] then []
    else if s[0] == e then Drop(s[1..], e)
    else [s[0]] + Drop(s[1..], e)
  }

  ghost function DropAll(lists: Lists, e: ListHead): Lists {
    map h | h in lists :: Drop(lists[h], e)
  }

  /** What an operation means for sequences: nothing here knows of rings or owners. */
  ghost function ListNext(lists: Lists, op: Op): Lists {
    match op
    case OpInit(h) => lists[h := []]
    case OpAdd(e, h) => lists[h := [e] + Of(lists, h)]
    case OpAddTail(e, h) => lists[h := Of(lists, h) + [e]]
    case OpDel(e) => DropAll(lists, e)
    case OpDelInit(e) => DropAll(lists, e)[e := []]
    case OpMove(e, h) => DropAll(lists, e)[h := [e] + Drop(Of(lists, h), e)]
    case OpMoveTail(e, h) => DropAll(lists, e)[h := Drop(Of(lists, h), e) + [e]]
    case OpSplice(l, h) => if Of(lists, l) == [] then lists else lists[h := Of(lists, l) + Of(lists, h)] - {l}
    case OpSpliceInit(l, h) => if Of(lists, l) == [] then lists else lists[h := Of(lists, l) + Of(lists, h)][l := []]
  }

  ghost function ListRun(lists: Lists, ops: seq<Op>): Lists
    decreases |ops|
  {
    if ops == [] then lists else ListRun(ListNext(lists, ops[0]), ops[1..])
  }

  lemma {:induction false} DropAbsent(s: seq<ListHead>, e: ListHead)
    requires e !in s
    ensures Drop(s, e) == s
  {
    if s != [] {
      DropAbsent(s[1..], e);
    }
  }

  lemma {:induction false} DropOnce(s: seq<ListHead>, k: nat)
    requires Distinct(s) && k < |s|
    ensures Drop(s, s[k]) == s[..k] + s[k + 1..]
  {
    if k == 0 {
      DropAbsent(s[1..], s[0]);
    } else {
      DropOnce(s[1..], k - 1);
      assert s[..k] + s[k + 1..] == [s[0]] + (s[1..][..k - 1] + s[1..][k..]);
    }
  }

  /** Every node is in one ring at most, and once. */
  ghost predicate Proper(w: World) {
    forall h | h in w.rings :: Owns(w, h) && Distinct(w.rings[h])
  }

  lemma {:induction false} WithoutReads(r: seq<ListHead>, k: nat)
    requires Distinct(r) && 0 < k < |r|
    ensures Entries(Without(r, k)) == Drop(Entries(r), r[k])
  {
    DropOnce(r[1..], k - 1);
    assert Without(r, k)[1..] == r[1..][..k - 1] + r[1..][k..];
  }

  lemma {:induction false} RemovedReadsAt(w: World, e: ListHead, h: ListHead)
    requires Proper(w) && IsEntry(w, e) && h in w.rings
    ensures Entries(Removed(w, e).rings[h]) == Drop(Entries(w.rings[h]), e)
  {
    assert Owns(w, h);
    if h == w.owner[e] {
      WithoutReads(w.rings[h], Index(w.rings[h], e));
    } else {
      DropAbsent(w.rings[h][1..], e);
    }
  }

  lemma {:induction false} RemovedReads(w: World, e: ListHead)
    requires Proper(w) && IsEntry(w, e)
    ensures Contents(Removed(w, e)) == DropAll(Contents(w), e)
  {
    forall h | h in w.rings {
      RemovedReadsAt(w, e, h);
    }
  }

  /** Changing one ring changes one list. */
  lemma {:induction false} ContentsSet(w: World, v: World, h: ListHead, r: seq<ListHead>, s: seq<ListHead>)
    requires v.rings == w.rings[h := r] && Entries(r) == s
    ensures Contents(v) == Contents(w)[h := s]
  {}

  lemma {:induction false} InitReads(w: World, h: ListHead)
    ensures Contents(Empty(w, h)) == Contents(w)[h := []]
  {
    assert Entries([h]) == [];
    ContentsSet(w, Empty(w, h), h, [h], []);
  }

  lemma {:induction false} StackedReads(w: World, e: ListHead, h: ListHead)
    requires h in w.rings && w.rings[h] != []
    ensures Contents(Stacked(w, e, h)) == Contents(w)[h := [e] + Contents(w)[h]]
  {
    assert Entries([h, e] + w.rings[h][1..]) == [e] + Entries(w.rings[h]);
    ContentsSet(w, Stacked(w, e, h), h, [h, e] + w.rings[h][1..], [e] + Entries(w.rings[h]));
  }

  lemma {:induction false} QueuedReads(w: World, e: ListHead, h: ListHead)
    requires h in w.rings && w.rings[h] != []
    ensures Contents(Queued(w, e, h)) == Contents(w)[h := Contents(w)[h] + [e]]
  {
    assert Entries(w.rings[h] + [e]) == Entries(w.rings[h]) + [e];
    ContentsSet(w, Queued(w, e, h), h, w.rings[h] + [e], Entries(w.rings[h]) + [e]);
  }

  lemma {:induction false} SplicedReads(w: World, l: ListHead, h: ListHead)
    requires Legal(w, OpSplice(l, h))
    ensures Contents(Spliced(w, l, h)) == ListNext(Contents(w), OpSplice(l, h))
  {
    var a, b := w.rings[l], w.rings[h];
    if |a| > 1 {
      var r := [h] + a[1..] + b[1..];
      assert Entries(r) == a[1..] + b[1..];
      assert Contents(Spliced(w, l, h)).Keys == w.rings.Keys - {l};
    }
  }

  /** Each operation on the rings is the operation on the sequences. */
  lemma {:induction false} NextReads(w: World, op: Op)
    requires Proper(w) && Legal(w, op)
    ensures Contents(Next(w, op)) == ListNext(Contents(w), op)
  {
    match op
    case OpInit(h) => InitReads(w, h);
    case OpAdd(e, h) => StackedReads(w, e, h);
    case OpAddTail(e, h) =>
      assert Owns(w, h);
      QueuedReads(w, e, h);
    case OpDel(e) => RemovedReads(w, e);
    case OpDelInit(e) =>
      RemovedReads(w, e);
      InitReads(Removed(w, e), e);
    case OpMove(e, h) =>
      RemovedReads(w, e);
      StackedReads(Removed(w, e), e, h);
    case OpMoveTail(e, h) =>
      RemovedReads(w, e);
      RemovedOwns(w, e, h);
      QueuedReads(Removed(w, e), e, h);
    case OpSplice(l, h) => SplicedReads(w, l, h);
    case OpSpliceInit(l, h) =>
      SplicedReads(w, l, h);
      InitReads(Spliced(w, l, h), l);
      if |w.rings[l]| > 1 {
        assert Contents(Next(w, op)) == ListNext(Contents(w), OpSplice(l, h))[l := []];
      }
  }

  method Perform(op: Op, ghost w: World) returns (ghost v: World)
    requires WellFormed(w) && Legal(w, op)
    modifies Touched(op), w.owner.Keys
    ensures WellFormed(v) && v == Next(w, op)
    ensures Contents(v) == ListNext(Contents(w), op)
  {
    NextReads(w, op);
    match op
    case OpInit(h) => v := Init(h, w);
    case OpAdd(e, h) => v := AddTo(e, h, w);
    case OpAddTail(e, h) => v := AddTailTo(e, h, w);
    case OpDel(e) => v := Del(e, w);
    case OpDelInit(e) => v := DelInit(e, w);
    case OpMove(e, h) => v := Move(e, h, w);
    case OpMoveTail(e, h) => v := MoveTail(e, h, w);
    case OpSplice(l, h) => v := SpliceTo(l, h, w);
    case OpSpliceInit(l, h) => v := SpliceInit(l, h, w);
  }

  lemma {:induction false} NodesOf(w: World, op: Op)
    requires Legal(w, op)
    ensures Next(w, op).owner.Keys <= w.owner.Keys + {Touched(op)}
  {
  }

  /** After any sequence of operations the pointers are rings that read as the specification says. */
  method RunAll(ops: seq<Op>, ghost w: World) returns (ghost v: World)
    requires WellFormed(w) && AllLegal(w, ops)
    modifies set op | op in ops :: Touched(op), w.owner.Keys
    ensures WellFormed(v) && v == Run(w, ops)
    ensures Contents(v) == ListRun(Contents(w), ops)
  {
    v := w;
    for i := 0 to |ops|
      invariant WellFormed(v) && AllLegal(v, ops[i..]) && Run(v, ops[i..]) == Run(w, ops)
      invariant ListRun(Contents(v), ops[i..]) == ListRun(Contents(w), ops)
      invariant v.owner.Keys <= w.owner.Keys + set op | op in ops :: Touched(op)
    {
      assert ops[i..][0] == ops[i] && ops[i..][1..] == ops[i + 1..];
      NodesOf(v, ops[i]);
      v := Perform(ops[i], v);
    }
  }
}
