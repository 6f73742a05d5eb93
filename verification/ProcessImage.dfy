/**
 IOComponent::processAll: masked data from the domain is merged into the IO image, and the
 components that own changed bits are found through the component table.
 */
module ProcessImage {
  import opened Bits
  import opened IoMap
  import opened Outputs

  datatype Hardware = PreInit | Init | Operational

  // ----- processAll -----

  /** The component last looked at (just_added) and the components found changed so far. */
  datatype Scan = Scan(justAdded: IOComponent?, found: set<IOComponent>)

  /** One turn of the bit loop: bit j of byte i, with the component table entry for it. */
  function ScanBit(s: Scan, changed: bool, masked: bool, c: IOComponent?): Scan {
    if masked && c != null && c != s.justAdded
    then Scan(c, if changed then s.found + {c} else s.found)
    else s
  }

  function ScanNext(s: Scan, mask: Byte, data: Byte, image: Byte, j: nat, c: IOComponent?): Scan
    requires j < 8
  {
    if data != image && mask != ZERO then ScanBit(s, data[j] != image[j], mask[j], c) else s
  }

  /** The scan of the first k bits; bytes that are equal, or have no mask bit, are passed over. */
  function ScanTo(mask: seq<Byte>, data: seq<Byte>, image: seq<Byte>, index: seq<IOComponent?>, k: nat): Scan
    requires |mask| == |data| == |image| && |index| == 8 * |mask| && k <= |index|
  {
    if k == 0 then Scan(null, {})
    else
      ScanNext(ScanTo(mask, data, image, index, k - 1),
               mask[(k - 1) / 8], data[(k - 1) / 8], image[(k - 1) / 8], (k - 1) % 8, index[k - 1])
  }

  /** The components that own one of the first n bits, where it is set. */
  ghost function Owners(index: seq<IOComponent?>, bits: seq<bool>, n: nat): set<IOComponent>
    requires n <= |index| == |bits|
  {
    set k | 0 <= k < n && bits[k] && index[k] != null :: index[k]
  }

  /** The components listed at bytes with a mask bit, notified until a first image has been kept. */
  ghost function ListedAt(byFirstByte: seq<seq<IOComponent>>, mask: seq<Byte>, n: nat): set<IOComponent>
    requires |byFirstByte| == |mask| && n <= |mask|
  {
    set i, c | 0 <= i < n && mask[i] != ZERO && c in byFirstByte[i] :: c
  }

  class IOImage {
    const index: seq<IOComponent?>              // indexed_components
    const byFirstByte: seq<seq<IOComponent>>    // io_map
    const outputs: OutputQueue
    var data: array<Byte>                       // io_process_data
    var hardware: Hardware
    var kept: bool                              // last_process_data has been allocated

    ghost predicate Valid()
      reads this`data, outputs
    {
      && |index| == 8 * data.Length && |byFirstByte| == data.Length
      && outputs.Valid() && outputs.image == data
    }

    constructor (index: seq<IOComponent?>, byFirstByte: seq<seq<IOComponent>>, outputs: OutputQueue)
      requires outputs.Valid() && |byFirstByte| == outputs.image.Length && |index| == 8 * |byFirstByte|
      ensures Valid() && hardware == PreInit && !kept
      ensures this.index == index && this.byFirstByte == byFirstByte && this.outputs == outputs
    {
      this.index, this.byFirstByte, this.outputs := index, byFirstByte, outputs;
      data, hardware, kept := outputs.image, PreInit, false;
    }

    /** The components whose bits an incoming mask and data show changed, once the image is in use. */
    ghost function Notified(mask: seq<Byte>, incoming: seq<Byte>): set<IOComponent>
      requires |index| == 8 * data.Length && |byFirstByte| == |mask| == |incoming| == data.Length
      reads this, data
    {
      ScanTo(mask, incoming, data[..], index, |index|).found
      + if kept then {} else ListedAt(byFirstByte, mask, |mask|)
    }

    method ProcessAll(mask: array<Byte>, incoming: array<Byte>) returns (updated: set<IOComponent>)
      requires Valid() && mask.Length == incoming.Length == data.Length
      requires mask != data && incoming != data
      modifies data, this`kept, outputs`out, outputs`waiting
      ensures Valid()
      ensures hardware == PreInit ==>
                updated == {} && data[..] == incoming[..] && kept == old(kept) && outputs.out == old(outputs.out)
      ensures hardware != PreInit ==>
                && updated == old(Notified(mask[..], incoming[..]))
                && View(data[..]) == MergeBits(old(View(data[..])), View(incoming[..]), View(mask[..]))
                && kept == (old(kept) || hardware == Operational)
                && outputs.out == if updated != {} && outputs.sent
                                  then old(outputs.out) - updated - old(Matching(outputs.out)) else old(outputs.out)
    {
      if hardware == PreInit {
        updated := {};
        forall n | 0 <= n < data.Length {
          data[n] := incoming[n];
        }
      } else {
        updated := Replicate(mask, incoming);
        ghost var image := data[..];
        kept := kept || hardware == Operational;
        assert Matching(outputs.out) == old(Matching(outputs.out));
        if updated != {} {
          outputs.Settle(updated);
        }
        assert data[..] == image;
      }
    }

    method Replicate(mask: array<Byte>, incoming: array<Byte>) returns (updated: set<IOComponent>)
      requires Valid() && mask.Length == incoming.Length == data.Length
      requires mask != data && incoming != data
      modifies data
      ensures Valid() && updated == old(Notified(mask[..], incoming[..]))
      ensures View(data[..]) == MergeBits(old(View(data[..])), View(incoming[..]), View(mask[..]))
      ensures Matching(outputs.out) == old(Matching(outputs.out))
    {
      var listed := {};
      if !kept {
        listed := NotifyListed(mask, byFirstByte);
      }
      var found := ApplyMask(mask, incoming, data, index);
      updated := found + listed;
    }
  }

  /** The bit copying of processAll, byte by byte. */
  method ApplyMask(mask: array<Byte>, incoming: array<Byte>, data: array<Byte>, index: seq<IOComponent?>)
    returns (found: set<IOComponent>)
    requires mask.Length == incoming.Length == data.Length && |index| == 8 * data.Length
    requires mask != data && incoming != data
    modifies data
    ensures View(data[..]) == MergeBits(old(View(data[..])), View(incoming[..]), View(mask[..]))
    ensures found == old(ScanTo(mask[..], incoming[..], data[..], index, |index|).found)
  {
    ghost var image, m, d := data[..], mask[..], incoming[..];
    var justAdded: IOComponent? := null;
    found := {};
    for i := 0 to data.Length
      invariant mask[..] == m && incoming[..] == d
      invariant forall n | 0 <= n < i :: MergedByte(data[n], image[n], d[n], m[n])
      invariant forall n | i <= n < data.Length :: data[n] == image[n]
      invariant Scan(justAdded, found) == ScanTo(m, d, image, index, 8 * i)
    {
      data[i], justAdded, found := VisitByte(mask[i], incoming[i], data[i], index, justAdded, found, m, d, image, i);
    }
    ViewMerged(data[..], image, d, m);
  }

  /** One byte of processAll: left alone if it is equal or has no mask bit. */
  method VisitByte(mask: Byte, incoming: Byte, image: Byte, index: seq<IOComponent?>, justAdded0: IOComponent?,
                   found0: set<IOComponent>, ghost m: seq<Byte>, ghost d: seq<Byte>, ghost q: seq<Byte>, i: nat)
    returns (r: Byte, justAdded: IOComponent?, found: set<IOComponent>)
    requires i < |m| == |d| == |q| && |index| == 8 * |m| && mask == m[i] && incoming == d[i] && image == q[i]
    requires Scan(justAdded0, found0) == ScanTo(m, d, q, index, 8 * i)
    ensures MergedByte(r, image, incoming, mask)
    ensures Scan(justAdded, found) == ScanTo(m, d, q, index, 8 * (i + 1))
  {
    r, justAdded, found := image, justAdded0, found0;
    ScanBitsStep(m, d, q, index, i, |mask|);
    if incoming != image && mask != ZERO {
      r, justAdded, found := ApplyByte(mask, incoming, image, index[8 * i..8 * i + 8], justAdded, found);
    } else {
      UnchangedIsMerged(image, incoming, mask);
    }
    assert 8 * i + |mask| == 8 * (i + 1);
  }

  /** notifyComponentsAt for every byte with a mask bit. */
  method NotifyListed(mask: array<Byte>, byFirstByte: seq<seq<IOComponent>>) returns (listed: set<IOComponent>)
    requires mask.Length == |byFirstByte|
    ensures listed == ListedAt(byFirstByte, mask[..], mask.Length)
  {
    listed := {};
    for i := 0 to mask.Length
      invariant listed == ListedAt(byFirstByte, mask[..], i)
    {
      if mask[i] != ZERO {
        listed := listed + (set c | c in byFirstByte[i]);
      }
      ListedStep(byFirstByte, mask[..], i);
    }
  }

  lemma UnchangedIsMerged(image: Byte, data: Byte, mask: Byte)
    requires data == image || mask == ZERO
    ensures MergedByte(image, image, data, mask)
  {}

  lemma ListedStep(byFirstByte: seq<seq<IOComponent>>, mask: seq<Byte>, i: nat)
    requires |byFirstByte| == |mask| && i < |mask|
    ensures ListedAt(byFirstByte, mask, i + 1) ==
            ListedAt(byFirstByte, mask, i) + if mask[i] != ZERO then (set c | c in byFirstByte[i]) else {}
  {}

  /** The scan of the first n bits of one byte. */
  function ScanByte(mask: Byte, incoming: Byte, image: Byte, index: seq<IOComponent?>, s: Scan, n: nat): Scan
    requires |index| == 8 && n <= 8
  {
    if n == 0 then s
    else ScanBit(ScanByte(mask, incoming, image, index, s, n - 1), incoming[n - 1] != image[n - 1], mask[n - 1], index[n - 1])
  }

  /** The bit loop of processAll, lowest bit first. */
  method ApplyByte(mask: Byte, incoming: Byte, image: Byte, index: seq<IOComponent?>, justAdded0: IOComponent?,
                   found0: set<IOComponent>)
    returns (r: Byte, justAdded: IOComponent?, found: set<IOComponent>)
    requires |index| == 8
    ensures MergedByte(r, image, incoming, mask)
    ensures Scan(justAdded, found) == ScanByte(mask, incoming, image, index, Scan(justAdded0, found0), |mask|)
  {
    r, justAdded, found := image, justAdded0, found0;
    for j := 0 to 8
      invariant forall k | 0 <= k < 8 :: r[k] == if k < j && mask[k] then incoming[k] else image[k]
      invariant Scan(justAdded, found) == ScanByte(mask, incoming, image, index, Scan(justAdded0, found0), j)
    {
      if mask[j] {
        var c := index[j];
        if c != null && c != justAdded {
          justAdded := c;
          if incoming[j] != r[j] {
            found := found + {c};
            r := r[j := incoming[j]];
          }
        } else if incoming[j] != r[j] {
          r := r[j := incoming[j]];
        }
      }
    }
  }

  /** Turns of the scan within a byte are the scan of that byte. */
  lemma {:induction false} ScanBitsStep(mask: seq<Byte>, data: seq<Byte>, image: seq<Byte>,
                                        index: seq<IOComponent?>, i: nat, n: nat)
    requires |mask| == |data| == |image| && |index| == 8 * |mask| && i < |mask| && n <= 8
    ensures var s := ScanTo(mask, data, image, index, 8 * i);
            ScanTo(mask, data, image, index, 8 * i + n) ==
            if data[i] != image[i] && mask[i] != ZERO
            then ScanByte(mask[i], data[i], image[i], index[8 * i..8 * i + 8], s, n) else s
    decreases n
  {
    if n > 0 {
      ScanBitsStep(mask, data, image, index, i, n - 1);
      assert (8 * i + n - 1) / 8 == i && (8 * i + n - 1) % 8 == n - 1;
      assert index[8 * i..8 * i + 8][n - 1] == index[8 * i + n - 1];
    }
  }

  // ----- which components are notified -----

  /** The masked bits in which the incoming data differs from the image. */
  function Changed(mask: seq<bool>, incoming: seq<bool>, image: seq<bool>): (bits: seq<bool>)
    requires |mask| == |incoming| == |image|
    ensures |bits| == |mask|
  {
    seq(|mask|, k requires 0 <= k < |mask| => mask[k] && incoming[k] != image[k])
  }

  lemma OwnersStep(index: seq<IOComponent?>, bits: seq<bool>, n: nat)
    requires n < |index| == |bits|
    ensures Owners(index, bits, n + 1) ==
            if bits[n] && index[n] != null then Owners(index, bits, n) + {index[n]} else Owners(index, bits, n)
  {}

  /** Every component found owns a changed masked bit. */
  lemma {:induction false} ScanSound(mask: seq<Byte>, data: seq<Byte>, image: seq<Byte>, index: seq<IOComponent?>, k: nat)
    requires |mask| == |data| == |image| && |index| == 8 * |mask| && k <= |index|
    ensures ScanTo(mask, data, image, index, k).found
         <= Owners(index, Changed(View(mask), View(data), View(image)), k)
  {
    if k > 0 {
      ScanSound(mask, data, image, index, k - 1);
      OwnersStep(index, Changed(View(mask), View(data), View(image)), k - 1);
    }
  }

  /**
   If every masked bit really differs from the image, the just_added shortcut loses nothing:
   exactly the owners of masked bits are found.
   */
  lemma {:induction false} ScanExact(mask: seq<Byte>, data: seq<Byte>, image: seq<Byte>, index: seq<IOComponent?>, k: nat)
    requires |mask| == |data| == |image| && |index| == 8 * |mask| && k <= |index|
    requires Changed(View(mask), View(data), View(image)) == View(mask)
    ensures var s := ScanTo(mask, data, image, index, k);
            s.found == Owners(index, View(mask), k) && (s.justAdded != null ==> s.justAdded in s.found)
  {
    if k > 0 {
      ScanExact(mask, data, image, index, k - 1);
      OwnersStep(index, View(mask), k - 1);
      var i, j := (k - 1) / 8, (k - 1) % 8;
      assert View(mask)[k - 1] == mask[i][j];
      assert mask[i][j] ==> data[i] != image[i] && mask[i] != ZERO by {
        assert Changed(View(mask), View(data), View(image))[k - 1] == mask[i][j];
      }
    }
  }

  /** A bit at which the scan looks at a component: it owns the bit, the mask has it, and the byte is not passed over. */
  predicate Looked(mask: seq<Byte>, data: seq<Byte>, image: seq<Byte>, index: seq<IOComponent?>, c: IOComponent, k: nat)
    requires |mask| == |data| == |image| && |index| == 8 * |mask|
  {
    k < |index| && index[k] == c && mask[k / 8][k % 8] && data[k / 8] != image[k / 8]
  }

  predicate IsFirstLook(mask: seq<Byte>, data: seq<Byte>, image: seq<Byte>, index: seq<IOComponent?>, c: IOComponent, k: nat)
    requires |mask| == |data| == |image| && |index| == 8 * |mask|
  {
    && Looked(mask, data, image, index, c, k)
    && forall j: nat | j < k :: !Looked(mask, data, image, index, c, j)
  }

  /** The first such bit below n differs. */
  predicate FirstLookDiffers(mask: seq<Byte>, data: seq<Byte>, image: seq<Byte>, index: seq<IOComponent?>, c: IOComponent, n: nat)
    requires |mask| == |data| == |image| && |index| == 8 * |mask|
  {
    exists k: nat :: k < n && IsFirstLook(mask, data, image, index, c, k) && data[k / 8][k % 8] != image[k / 8][k % 8]
  }

  predicate LookedBelow(mask: seq<Byte>, data: seq<Byte>, image: seq<Byte>, index: seq<IOComponent?>, c: IOComponent, n: nat)
    requires |mask| == |data| == |image| && |index| == 8 * |mask|
  {
    exists k: nat :: k < n && Looked(mask, data, image, index, c, k)
  }

  /**
   What the just_added shortcut finds, exactly: a component whose bits follow one another is found if and
   only if the first of its masked bits, in a byte that is not equal, differs.
   */
  lemma {:induction false} ScanFindsExactly(mask: seq<Byte>, data: seq<Byte>, image: seq<Byte>, index: seq<IOComponent?>,
                                            c: IOComponent, n: nat)
    requires |mask| == |data| == |image| && |index| == 8 * |mask| && n <= |index| && Contiguous(index)
    ensures var s := ScanTo(mask, data, image, index, n);
            && (c in s.found <==> FirstLookDiffers(mask, data, image, index, c, n))
            && (s.justAdded == c ==> LookedBelow(mask, data, image, index, c, n))
            && (LookedBelow(mask, data, image, index, c, n) && n > 0 && index[n - 1] == c ==> s.justAdded == c)
  {
    if n > 0 {
      var k := n - 1;
      ScanFindsExactly(mask, data, image, index, c, k);
      LookStep(mask, data, image, index, c, k);
      if LookedBelow(mask, data, image, index, c, k) && index[k] == c {
        LookedRunsOn(mask, data, image, index, c, k);
      }
      assert Looked(mask, data, image, index, c, k) ==> mask[k / 8] != ZERO;
    }
  }

  lemma {:induction false} LookStep(mask: seq<Byte>, data: seq<Byte>, image: seq<Byte>, index: seq<IOComponent?>,
                                    c: IOComponent, k: nat)
    requires |mask| == |data| == |image| && |index| == 8 * |mask| && k < |index|
    ensures LookedBelow(mask, data, image, index, c, k + 1)
            <==> LookedBelow(mask, data, image, index, c, k) || Looked(mask, data, image, index, c, k)
    ensures FirstLookDiffers(mask, data, image, index, c, k + 1)
            <==> FirstLookDiffers(mask, data, image, index, c, k)
                 || (!LookedBelow(mask, data, image, index, c, k) && Looked(mask, data, image, index, c, k)
                     && data[k / 8][k % 8] != image[k / 8][k % 8])
    ensures FirstLookDiffers(mask, data, image, index, c, k) ==> LookedBelow(mask, data, image, index, c, k)
  {
    if LookedBelow(mask, data, image, index, c, k) {
      var j: nat :| j < k && Looked(mask, data, image, index, c, j);
      assert j < k + 1;
    }
  }

  /** Once looked at, a component that still owns the next bit owned the one before it. */
  lemma {:induction false} LookedRunsOn(mask: seq<Byte>, data: seq<Byte>, image: seq<Byte>, index: seq<IOComponent?>,
                                        c: IOComponent, k: nat)
    requires |mask| == |data| == |image| && |index| == 8 * |mask| && k < |index| && Contiguous(index)
    requires LookedBelow(mask, data, image, index, c, k) && index[k] == c
    ensures k > 0 && index[k - 1] == c
  {
    var j: nat :| j < k && Looked(mask, data, image, index, c, j);
    if j < k - 1 {
      assert index[j] != null && index[j] == index[k];
    }
  }

  /** So the shortcut loses a component that owns a changed masked bit exactly when its first look shows no difference. */
  lemma {:induction false} ShortcutLosesExactly(mask: seq<Byte>, data: seq<Byte>, image: seq<Byte>, index: seq<IOComponent?>,
                                                c: IOComponent)
    requires |mask| == |data| == |image| && |index| == 8 * |mask| && Contiguous(index)
    requires c in Owners(index, Changed(View(mask), View(data), View(image)), |index|)
    ensures c !in ScanTo(mask, data, image, index, |index|).found
            <==> exists k: nat :: k < |index| && IsFirstLook(mask, data, image, index, c, k)
                                  && data[k / 8][k % 8] == image[k / 8][k % 8]
  {
    ScanFindsExactly(mask, data, image, index, c, |index|);
    var b: nat :| b < |index| && Changed(View(mask), View(data), View(image))[b] && index[b] == c;
    assert Looked(mask, data, image, index, c, b);
    var k := FirstLook(mask, data, image, index, c, b);
    OneFirstLook(mask, data, image, index, c, k);
  }

  lemma {:induction false} OneFirstLook(mask: seq<Byte>, data: seq<Byte>, image: seq<Byte>, index: seq<IOComponent?>,
                                        c: IOComponent, k: nat)
    requires |mask| == |data| == |image| && |index| == 8 * |mask| && IsFirstLook(mask, data, image, index, c, k)
    ensures k < |index|
    ensures forall j: nat | IsFirstLook(mask, data, image, index, c, j) :: j == k
  {
    forall j: nat | IsFirstLook(mask, data, image, index, c, j)
      ensures j == k
    {
    }
  }

  lemma {:induction false} FirstLook(mask: seq<Byte>, data: seq<Byte>, image: seq<Byte>, index: seq<IOComponent?>,
                                     c: IOComponent, b: nat) returns (k: nat)
    requires |mask| == |data| == |image| && |index| == 8 * |mask| && Looked(mask, data, image, index, c, b)
    ensures IsFirstLook(mask, data, image, index, c, k)
  {
    k := 0;
    while !Looked(mask, data, image, index, c, k)
      invariant k <= b && forall j: nat | j < k :: !Looked(mask, data, image, index, c, j)
      decreases b - k
    {
      k := k + 1;
    }
  }

  /** The first mask is the whole process mask; every component of the table is listed at a byte that has a bit of it. */
  lemma {:induction false} AllListed(tables: IOTables, queue: seq<IOComponent>, k: nat)
    requires tables.Built(queue) && (forall c <- queue :: WellPlaced(c)) && k < tables.index.Length
    requires tables.index[k] != null
    ensures tables.index[k] in ListedAt(tables.byFirstByte, tables.processMask[..], |tables.byFirstByte|)
  {
    var c := tables.index[k];
    OwnerCovers(queue, k);
    OwnerNamed(queue, k);
    StartingHas(queue, c);
    PlacedInside(c);
    var i := FirstByte(c);
    assert Covers(c, 8 * i + c.bitpos) && tables.processMask[i][c.bitpos];
    assert c in tables.byFirstByte[i];
  }

  /** So until an image has been kept, a cycle with the whole process mask notifies every component, whatever the scan loses. */
  lemma {:induction false} FirstCycleTellsAll(io: IOImage, tables: IOTables, queue: seq<IOComponent>, incoming: seq<Byte>)
    requires tables.Built(queue) && (forall c <- queue :: WellPlaced(c)) && !io.kept
    requires io.index == tables.index[..] && io.byFirstByte == tables.byFirstByte
    requires |io.index| == 8 * io.data.Length && |io.byFirstByte| == |incoming| == io.data.Length
    ensures forall k | 0 <= k < |io.index| && io.index[k] != null ::
              io.index[k] in io.Notified(tables.processMask[..], incoming)
  {
    forall k | 0 <= k < |io.index| && io.index[k] != null
      ensures io.index[k] in io.Notified(tables.processMask[..], incoming)
    {
      AllListed(tables, queue, k);
    }
  }

  /** A two-bit component of which only the second bit changed: with both bits in the mask it is not found. */
  lemma {:induction false} ShortcutMisses(c: IOComponent)
    ensures var mask: Byte := [true, true, false, false, false, false, false, false];
            var data: Byte := [false, true, false, false, false, false, false, false];
            var index: seq<IOComponent?> := [c, c, null, null, null, null, null, null];
            && c !in ScanTo([mask], [data], [ZERO], index, |index|).found
            && c in Owners(index, Changed(View([mask]), View([data]), View([ZERO])), |index|)
  {
    var mask: Byte := [true, true, false, false, false, false, false, false];
    var data: Byte := [false, true, false, false, false, false, false, false];
    var index: seq<IOComponent?> := [c, c, null, null, null, null, null, null];
    var changed := Changed(View([mask]), View([data]), View([ZERO]));
    assert changed[1] && index[1] == c;
    assert data[1] != ZERO[1];
    assert IsFirstLook([mask], [data], [ZERO], index, c, 0) && data[0] == ZERO[0];
    ShortcutLosesExactly([mask], [data], [ZERO], index, c);
  }
}
