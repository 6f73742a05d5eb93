/**
 IO components, the bits of process data they occupy, and the tables that
 IOComponent::setupIOMap and generateProcessMask build from them.
 */
module IoMap {
  import opened Bits

  datatype Direction = Input | Output | Bidirectional
  datatype Event = TurnOn | TurnOff | Change | NoEvent

  class IOComponent {
    const name: string
    const offset: nat    // io_offset
    const bitpos: nat    // io_bitpos
    const bitlen: nat
    const direction: Direction
    var lastEvent: Event
    var pendingValue: Word
    var value: Word      // address.value, compared as uint32_t
    var ownersEnabled: bool

    constructor (name: string, offset: nat, bitpos: nat, bitlen: nat, direction: Direction)
      ensures this.name == name && this.offset == offset && this.bitpos == bitpos
      ensures this.bitlen == bitlen && this.direction == direction
      ensures lastEvent == NoEvent && value == 0
    {
      this.name, this.offset, this.bitpos, this.bitlen, this.direction := name, offset, bitpos, bitlen, direction;
      lastEvent, pendingValue, value, ownersEnabled := NoEvent, 0, 0, true;
    }
  }

  // ----- geometry -----

  /** The first byte of a component. */
  function FirstByte(c: IOComponent): nat {
    c.offset + c.bitpos / 8
  }

  /** The last byte that setupIOMap allows for a component. */
  function LastByte(c: IOComponent): nat {
    FirstByte(c) + if c.bitlen >= 8 then c.bitlen / 8 - 1 else 0
  }

  /** The first bit of a component, counted from bit 0 of byte 0. */
  function FirstBit(c: IOComponent): nat {
    8 * c.offset + c.bitpos
  }

  predicate Covers(c: IOComponent, k: nat) {
    FirstBit(c) <= k < FirstBit(c) + c.bitlen
  }

  /** Short entries stay inside one byte; longer ones are whole bytes. */
  predicate WellPlaced(c: IOComponent) {
    && c.bitpos < 8
    && (c.bitlen < 8 ==> c.bitpos + c.bitlen <= 8)
    && (c.bitlen >= 8 ==> c.bitpos == 0 && c.bitlen % 8 == 0)
  }

  /** The index of the component table that setupIOMap writes for bit i of a component. */
  function IndexSlot(c: IOComponent, i: nat): nat {
    FirstByte(c) * 8 + c.bitpos + i
  }

  /**
   The space allowed for a component bounds the index entries written for it, and each entry
   is that of a bit it covers, exactly when the component is well placed.
   */
  lemma SizeBoundsIndexExactly(c: IOComponent)
    requires c.bitlen > 0
    ensures (forall i: nat | i < c.bitlen :: IndexSlot(c, i) < 8 * (LastByte(c) + 1) && Covers(c, IndexSlot(c, i)))
            <==> WellPlaced(c)
  {
    if WellPlaced(c) {
      PlacedInside(c);
    } else {
      var last := c.bitlen - 1;
      assert IndexSlot(c, last) == 8 * FirstByte(c) + c.bitpos + last;
      assert c.bitlen >= 8 ==> c.bitlen == 8 * (c.bitlen / 8) + c.bitlen % 8;
    }
  }

  /** A bit position past the first byte is counted twice: the entry for bit 9 is written at 17, outside the table of two bytes. */
  lemma {:induction false} PastFirstByte(c: IOComponent)
    requires c.offset == 0 && c.bitpos == 9 && c.bitlen == 1
    ensures Covers(c, 9) && IndexSlot(c, 0) == 17 && 8 * (LastByte(c) + 1) == 16
  {
  }

  lemma PlacedInside(c: IOComponent)
    requires WellPlaced(c)
    ensures FirstByte(c) == c.offset
    ensures FirstBit(c) + c.bitlen <= 8 * (LastByte(c) + 1)
  {}

  ghost predicate Disjoint(cs: seq<IOComponent>) {
    forall i, j, k: nat | 0 <= i < j < |cs| && Covers(cs[i], k) :: !Covers(cs[j], k)
  }

  // ----- generateProcessMask -----

  /** A bit of the mask is set exactly when some component covers it. */
  ghost predicate Marked(mask: seq<Byte>, cs: seq<IOComponent>) {
    forall i: nat, j: nat | i < |mask| && j < 8 ::
      mask[i][j] <==> exists c <- cs :: Covers(c, 8 * i + j)
  }

  /** Sets the mask bits of one component, walking from its first byte. */
  method MarkComponent(res: array<Byte>, c: IOComponent)
    requires WellPlaced(c) && LastByte(c) < res.Length
    modifies res
    ensures forall i: nat, j: nat | i < res.Length && j < 8 ::
              res[i][j] <==> old(res[i][j]) || Covers(c, 8 * i + j)
  {
    PlacedInside(c);
    var offset: nat, bit: nat := c.offset + c.bitpos / 8, c.bitpos % 8;
    for n := 0 to c.bitlen
      invariant 8 * offset + bit == FirstBit(c) + n && bit < 8
      invariant forall i: nat, j: nat | i < res.Length && j < 8 ::
                  res[i][j] <==> old(res[i][j]) || FirstBit(c) <= 8 * i + j < FirstBit(c) + n
    {
      res[offset] := res[offset][bit := true];
      bit := bit + 1;
      if bit == 8 {
        bit := 0;
        offset := offset + 1;
      }
    }
  }

  method GenerateProcessMask(queue: seq<IOComponent>, size: nat) returns (res: array<Byte>)
    requires forall c <- queue :: WellPlaced(c) && LastByte(c) < size
    ensures fresh(res) && res.Length == size
    ensures Marked(res[..], queue)
  {
    res := new Byte[size](_ => ZERO);
    for n := 0 to |queue|
      invariant Marked(res[..], queue[..n])
    {
      ghost var before := res[..];
      MarkComponent(res, queue[n]);
      MarkedStep(before, res[..], queue[..n], queue[n]);
      assert queue[..n] + [queue[n]] == queue[..n + 1];
    }
    assert queue[..|queue|] == queue;
  }

  lemma MarkedStep(before: seq<Byte>, after: seq<Byte>, done: seq<IOComponent>, c: IOComponent)
    requires |before| == |after| && Marked(before, done)
    requires forall i: nat, j: nat | i < |after| && j < 8 ::
               after[i][j] <==> before[i][j] || Covers(c, 8 * i + j)
    ensures Marked(after, done + [c])
  {
    forall i: nat, j: nat | i < |after| && j < 8
      ensures after[i][j] <==> exists d <- done + [c] :: Covers(d, 8 * i + j)
    {
      if Covers(c, 8 * i + j) {
        assert c in done + [c];
      } else if before[i][j] {
        var d :| d in done && Covers(d, 8 * i + j);
        assert d in done + [c];
      }
    }
  }

  // ----- setupIOMap -----

  /** The last named component of the queue that covers bit k. */
  function Owner(queue: seq<IOComponent>, k: nat): IOComponent? {
    if queue == [] then null
    else
      var c := queue[|queue| - 1];
      if c.name != "" && Covers(c, k) then c else Owner(queue[..|queue| - 1], k)
  }

  /** Components that do not overlap: the indexed component is the one that covers the bit. */
  lemma {:induction false} OwnerCovers(queue: seq<IOComponent>, k: nat)
    ensures Owner(queue, k) != null ==> Owner(queue, k) in queue && Covers(Owner(queue, k), k)
    ensures Disjoint(queue) ==>
              forall c <- queue | c.name != "" && Covers(c, k) :: Owner(queue, k) == c
  {
    if queue != [] {
      var front, c := queue[..|queue| - 1], queue[|queue| - 1];
      OwnerCovers(front, k);
      if Disjoint(queue) {
        assert Disjoint(front);
        forall d <- queue | d.name != "" && Covers(d, k)
          ensures Owner(queue, k) == d
        {
          var i :| 0 <= i < |queue| && queue[i] == d;
          if i < |front| { assert front[i] == d; assert !Covers(c, k); }
        }
      }
    }
  }

  /** The named components whose first byte is b, in queue order. */
  function StartingAt(queue: seq<IOComponent>, b: nat): seq<IOComponent> {
    if queue == [] then []
    else
      var c := queue[|queue| - 1];
      StartingAt(queue[..|queue| - 1], b) + if c.name != "" && FirstByte(c) == b then [c] else []
  }

  lemma {:induction false} StartingHas(queue: seq<IOComponent>, c: IOComponent)
    requires c in queue && c.name != ""
    ensures c in StartingAt(queue, FirstByte(c))
  {
    var front, last := queue[..|queue| - 1], queue[|queue| - 1];
    if c != last {
      assert queue == front + [last];
      StartingHas(front, c);
    }
  }

  class IOTables {
    var minOffset: nat
    var maxOffset: nat
    var index: array<IOComponent?>       // indexed_components
    var byFirstByte: seq<seq<IOComponent>>  // io_map
    var processData: array<Byte>
    var processMask: array<Byte>

    constructor ()
    {
      minOffset, maxOffset, byFirstByte := 1000000, 0, [];
      index := new IOComponent?[0](_ => null);
      processData := new Byte[0](_ => ZERO);
      processMask := new Byte[0](_ => ZERO);
    }

    /** The tables of a queue, as wide as its highest byte needs. */
    ghost predicate Built(queue: seq<IOComponent>)
      reads this, index, processMask
    {
      && (forall c <- queue :: minOffset <= FirstByte(c) && LastByte(c) <= maxOffset)
      && minOffset <= maxOffset
      && processMask.Length == processData.Length == |byFirstByte| == maxOffset + 1
      && index.Length == 8 * (maxOffset + 1)
      && (forall k: nat | k < index.Length :: index[k] == Owner(queue, k))
      && (forall b: nat | b < |byFirstByte| :: byFirstByte[b] == StartingAt(queue, b))
      && Marked(processMask[..], queue)
    }

    method SetupIOMap(queue: seq<IOComponent>)
      requires forall c <- queue :: WellPlaced(c) && LastByte(c) < 10000
      modifies this
      ensures Built(queue)
      ensures fresh(index) && fresh(processData) && fresh(processMask)
      ensures forall i | 0 <= i < processData.Length :: processData[i] == ZERO
      ensures queue != [] ==> exists c <- queue :: LastByte(c) == maxOffset
      ensures queue != [] ==> exists c <- queue :: FirstByte(c) == minOffset
    {
      minOffset, maxOffset := MeasureOffsets(queue);
      index := IndexComponents(queue, maxOffset + 1);
      processData := new Byte[maxOffset + 1](_ => ZERO);
      byFirstByte := ListByFirstByte(queue, maxOffset + 1);
      processMask := GenerateProcessMask(queue, maxOffset + 1);
    }
  }

  /** The lowest and highest byte used. */
  method MeasureOffsets(queue: seq<IOComponent>) returns (minOffset: nat, maxOffset: nat)
    requires forall c <- queue :: LastByte(c) < 10000
    ensures minOffset <= maxOffset < 10000
    ensures forall c <- queue :: minOffset <= FirstByte(c) && LastByte(c) <= maxOffset
    ensures queue == [] ==> minOffset == maxOffset == 0
    ensures queue != [] ==> exists c <- queue :: LastByte(c) == maxOffset
    ensures queue != [] ==> exists c <- queue :: FirstByte(c) == minOffset
  {
    maxOffset, minOffset := 0, 1000000;
    for n := 0 to |queue|
      invariant maxOffset < 10000
      invariant n == 0 ==> maxOffset == 0 && minOffset == 1000000
      invariant n > 0 ==> minOffset <= maxOffset
      invariant forall i | 0 <= i < n :: minOffset <= FirstByte(queue[i]) && LastByte(queue[i]) <= maxOffset
      invariant n > 0 ==> exists i :: 0 <= i < n && LastByte(queue[i]) == maxOffset
      invariant n > 0 ==> exists i :: 0 <= i < n && FirstByte(queue[i]) == minOffset
    {
      var c := queue[n];
      assert c in queue;
      var offset := c.offset + c.bitpos / 8;
      if offset < minOffset {
        minOffset := offset;
      }
      if c.bitlen >= 8 {
        offset := offset + (c.bitlen / 8 - 1);
      }
      if offset > maxOffset {
        maxOffset := offset;
      }
    }
    if minOffset > maxOffset {
      minOffset := maxOffset;
    }
  }

  /** Fills the component table: every bit of every named component. */
  method IndexComponents(queue: seq<IOComponent>, size: nat) returns (index: array<IOComponent?>)
    requires forall c <- queue :: WellPlaced(c) && LastByte(c) < size
    ensures fresh(index) && index.Length == 8 * size
    ensures forall k: nat | k < 8 * size :: index[k] == Owner(queue, k)
  {
    index := new IOComponent?[8 * size](_ => null);
    for n := 0 to |queue|
      invariant forall k: nat | k < 8 * size :: index[k] == Owner(queue[..n], k)
    {
      var c := queue[n];
      assert c in queue;
      PlacedInside(c);
      if c.name != "" {
        var offset := c.offset + c.bitpos / 8;
        for i := 0 to c.bitlen
          invariant forall k: nat | k < 8 * size ::
                      index[k] == if FirstBit(c) <= k < FirstBit(c) + i then c else Owner(queue[..n], k)
        {
          index[offset * 8 + c.bitpos + i] := c;
        }
      }
      assert queue[..n + 1][..n] == queue[..n];
    }
    assert queue[..|queue|] == queue;
  }

  method ListByFirstByte(queue: seq<IOComponent>, size: nat) returns (lists: seq<seq<IOComponent>>)
    requires forall c <- queue :: LastByte(c) < size
    ensures |lists| == size
    ensures forall b: nat | b < size :: lists[b] == StartingAt(queue, b)
  {
    lists := seq(size, _ => []);
    for n := 0 to |queue|
      invariant |lists| == size
      invariant forall b: nat | b < size :: lists[b] == StartingAt(queue[..n], b)
    {
      var c := queue[n];
      assert c in queue && queue[..n + 1][..n] == queue[..n];
      if c.name != "" {
        var offset := c.offset + c.bitpos / 8;
        lists := lists[offset := lists[offset] + [c]];
      }
    }
    assert queue[..|queue|] == queue;
  }

  /** For components that do not overlap, a table entry names exactly the named component there. */
  lemma IndexExact(tables: IOTables, queue: seq<IOComponent>, c: IOComponent, k: nat)
    requires tables.Built(queue) && Disjoint(queue) && c in queue && WellPlaced(c) && k < tables.index.Length
    ensures tables.index[k] == c <==> c.name != "" && Covers(c, k)
    ensures Covers(c, k) ==> tables.processMask[k / 8][k % 8]
  {
    OwnerCovers(queue, k);
    OwnerNamed(queue, k);
    assert 8 * (k / 8) + k % 8 == k;
  }

  lemma {:induction false} OwnerNamed(queue: seq<IOComponent>, k: nat)
    ensures Owner(queue, k) != null ==> Owner(queue, k).name != ""
  {
    if queue != [] {
      OwnerNamed(queue[..|queue| - 1], k);
    }
  }

  /** The bits that a table entry names a component for follow one another. */
  ghost predicate Contiguous(index: seq<IOComponent?>) {
    forall i, j, k | 0 <= i < j < k < |index| && index[i] != null && index[i] == index[k] :: index[j] == index[i]
  }

  lemma {:induction false} IndexContiguous(tables: IOTables, queue: seq<IOComponent>)
    requires tables.Built(queue) && Disjoint(queue) && forall c <- queue :: WellPlaced(c)
    ensures Contiguous(tables.index[..])
  {
    var index := tables.index[..];
    forall i, j, k | 0 <= i < j < k < |index| && index[i] != null && index[i] == index[k]
      ensures index[j] == index[i]
    {
      var c := index[i];
      OwnerCovers(queue, i);
      OwnerNamed(queue, i);
      OwnerCovers(queue, k);
      assert Covers(c, j);
      IndexExact(tables, queue, c, j);
    }
  }
}
