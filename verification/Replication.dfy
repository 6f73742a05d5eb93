/**
 Delta replication of the EtherCAT domain over whole runs: collectState diffs, processAll applies.
 */
module Replication {
  import opened Bits
  import opened IoMap
  import opened Outputs
  import opened Collecting
  import opened ProcessImage

  // ----- runs of collect/apply cycles -----

  /** One cycle: what the domain holds, and the hardware state processAll finds. */
  datatype Cycle = Cycle(domain: seq<bool>, hardware: Hardware)

  /** The image kept by collectState and the IO image. */
  datatype Replica = Replica(last: Snapshot, image: seq<bool>)

  predicate Sized(s: Replica, n: nat) {
    |s.image| == n && FitsSize(s.last, n)
  }

  function NextReplica(s: Replica, cycle: Cycle, interest: seq<bool>): (r: Replica)
    requires Sized(s, |interest|) && |cycle.domain| == |interest|
    ensures Sized(r, |interest|)
  {
    Replica(Seen(cycle.domain),
            if cycle.hardware == PreInit then cycle.domain
            else MergeBits(s.image, cycle.domain, Delta(s.last, cycle.domain, interest)))
  }

  function RunCycles(s: Replica, cycles: seq<Cycle>, interest: seq<bool>): (r: Replica)
    requires Sized(s, |interest|) && forall c <- cycles :: |c.domain| == |interest|
    ensures Sized(r, |interest|)
  {
    if cycles == [] then s
    else
      assert cycles[|cycles| - 1] in cycles;
      NextReplica(RunCycles(s, cycles[..|cycles| - 1], interest), cycles[|cycles| - 1], interest)
  }

  /** The IO image shows the domain on every interesting bit. */
  predicate Synced(s: Replica, interest: seq<bool>)
    requires Sized(s, |interest|)
  {
    s.last.Seen? && forall k | 0 <= k < |interest| && interest[k] :: s.image[k] == s.last.bits[k]
  }

  /** A cycle synchronises the two images, the first time or again. */
  lemma {:induction false} CycleSyncs(s: Replica, cycle: Cycle, interest: seq<bool>)
    requires Sized(s, |interest|) && |cycle.domain| == |interest| && (s.last.Nothing? || Synced(s, interest))
    ensures Synced(NextReplica(s, cycle, interest), interest)
  {
  }

  /**
   Delta replication: after every cycle of every run the IO image equals the domain on every
   interesting bit, whatever the image and the domains were.
   */
  lemma {:induction false} Replicated(s: Replica, cycles: seq<Cycle>, interest: seq<bool>)
    requires Sized(s, |interest|) && (forall c <- cycles :: |c.domain| == |interest|)
    requires s.last.Nothing? || Synced(s, interest)
    ensures cycles != [] ==>
              var r := RunCycles(s, cycles, interest);
              Synced(r, interest) && r.last == Seen(cycles[|cycles| - 1].domain)
  {
    if |cycles| > 1 {
      Replicated(s, cycles[..|cycles| - 1], interest);
    }
  }

  /** Out of preinit no bit outside the mask ever changes. */
  lemma {:induction false} OutsideUnchanged(s: Replica, cycles: seq<Cycle>, interest: seq<bool>, k: nat)
    requires Sized(s, |interest|) && (forall c <- cycles :: |c.domain| == |interest| && c.hardware != PreInit)
    requires k < |interest| && !interest[k]
    ensures RunCycles(s, cycles, interest).image[k] == s.image[k]
  {
    if cycles != [] {
      OutsideUnchanged(s, cycles[..|cycles| - 1], interest, k);
    }
  }

  /** After a first cycle the delta of any domain consists of bits that really differ from the IO image. */
  lemma DeltaReallyDiffers(s: Replica, domain: seq<bool>, interest: seq<bool>)
    requires Sized(s, |interest|) && |domain| == |interest| && Synced(s, interest)
    ensures var delta := Delta(s.last, domain, interest); Changed(delta, domain, s.image) == delta
  {}

  /**
   Exact notification: in every run, after the first cycle and once an image has been kept, the
   components handed on are exactly those owning an interesting bit that changed.
   */
  lemma {:induction false} ExactNotification(s: Replica, cycles: seq<Cycle>, interest: seq<bool>, domain: seq<Byte>,
                          mask: seq<Byte>, image: seq<Byte>, index: seq<IOComponent?>)
    requires Sized(s, |interest|) && (forall c <- cycles :: |c.domain| == |interest|)
    requires cycles != [] && s.last.Nothing? && |index| == |interest|
    requires |domain| == |mask| == |image| && |interest| == 8 * |mask|
    requires var r := RunCycles(s, cycles, interest);
             View(image) == r.image && View(mask) == Delta(r.last, View(domain), interest)
    ensures var before := cycles[|cycles| - 1].domain;
            ScanTo(mask, domain, image, index, |index|).found ==
            Owners(index, Changed(interest, View(domain), before), |index|)
  {
    Replicated(s, cycles, interest);
    Found(RunCycles(s, cycles, interest), View(domain), interest, mask, domain, image, index);
  }

  /**
   What a cycle hands on, given the images before it, the new domain, and whether an image has been kept:
   nothing in preinit; exactly the owners of masked bits that changed once an image has been kept, no fewer
   before that; and all that are listed the first time.
   */
  ghost predicate Told(before: Replica, bits: seq<bool>, interest: seq<Byte>, index: seq<IOComponent?>,
                       byFirstByte: seq<seq<IOComponent>>, kept: bool, hardware: Hardware, updated: set<IOComponent>)
    requires Sized(before, |bits|) && |bits| == |index| == 8 * |interest| && |byFirstByte| == |interest|
  {
    if hardware == PreInit then updated == {}
    else
      && (Synced(before, View(interest)) ==>
            var owners := Owners(index, Changed(View(interest), bits, before.last.bits), |index|);
            if kept then updated == owners else owners <= updated)
      && (before.last.Nothing? && !kept ==> ListedAt(byFirstByte, interest, |interest|) <= updated)
  }

  lemma {:induction false} CycleTells(before: Replica, bits: seq<bool>, interest: seq<Byte>, mask: seq<Byte>, data: seq<Byte>,
                                      image: seq<Byte>, index: seq<IOComponent?>, byFirstByte: seq<seq<IOComponent>>,
                                      kept: bool, hardware: Hardware, updated: set<IOComponent>)
    requires Sized(before, |bits|) && |bits| == |index| == 8 * |interest| && |byFirstByte| == |interest|
    requires |mask| == |data| == |image| == |interest|
    requires View(image) == before.image && View(data) == bits && View(mask) == Delta(before.last, bits, View(interest))
    requires hardware == PreInit ==> updated == {}
    requires hardware != PreInit ==>
               updated == ScanTo(mask, data, image, index, |index|).found + if kept then {} else ListedAt(byFirstByte, mask, |mask|)
    ensures Told(before, bits, interest, index, byFirstByte, kept, hardware, updated)
  {
    if before.last.Nothing? {
      assert View(mask) == View(interest);
      ViewSame(mask, interest);
    } else if Synced(before, View(interest)) {
      Found(before, bits, View(interest), mask, data, image, index);
    }
  }

  /** One cycle of the two threads: collect, then apply. */
  method RunCycle(reader: DomainReader, io: IOImage, domain: array<Byte>)
    returns (affected: nat, updated: set<IOComponent>)
    requires reader.Valid() && io.Valid()
    requires domain.Length == reader.interest.Length == io.data.Length
    requires domain != reader.updateData && domain != reader.updateMask && domain != reader.interest && domain != io.data
    requires io.data != reader.updateData && io.data != reader.updateMask && io.data != reader.interest
    requires io.data != reader.processData
    modifies reader`processData, reader.updateData, reader.updateMask, io.data, io`kept, io.outputs`out, io.outputs`waiting
    ensures reader.Valid() && io.Valid()
    ensures Replica(reader.Last(), View(io.data[..])) ==
            NextReplica(old(Replica(reader.Last(), View(io.data[..]))),
                        Cycle(View(domain[..]), io.hardware), old(View(reader.interest[..])))
    ensures var delta := Delta(old(reader.Last()), View(domain[..]), old(View(reader.interest[..])));
            affected == if old(reader.Last()).Nothing? then domain.Length else |OnesBelow(delta, |delta|)|
    ensures var interest := old(View(reader.interest[..]));
            var before := old(Replica(reader.Last(), View(io.data[..])));
            before.last.Nothing? || Synced(before, interest) ==> Synced(Replica(reader.Last(), View(io.data[..])), interest)
    ensures Told(old(Replica(reader.Last(), View(io.data[..]))), View(domain[..]), old(reader.interest[..]),
                 io.index, io.byFirstByte, old(io.kept), io.hardware, updated)
  {
    ghost var interest, bits, image, kept := reader.interest[..], View(domain[..]), io.data[..], io.kept;
    ghost var before := Replica(reader.Last(), View(image));
    affected := reader.CollectState(domain, true);
    ghost var last := reader.Last();
    ghost var mask, data := reader.updateMask[..], reader.updateData[..];
    assert View(mask) == Delta(before.last, bits, View(interest)) && data == domain[..];
    updated := io.ProcessAll(reader.updateMask, reader.updateData);
    assert reader.Last() == last;
    if before.last.Nothing? || Synced(before, View(interest)) {
      CycleSyncs(before, Cycle(bits, io.hardware), View(interest));
    }
    CycleTells(before, bits, interest, mask, data, image, io.index, io.byFirstByte, kept, io.hardware, updated);
  }

  /** What the scan of a synchronised image finds. */
  lemma {:induction false} Found(s: Replica, domain: seq<bool>, interest: seq<bool>, mask: seq<Byte>, data: seq<Byte>,
                                 image: seq<Byte>, index: seq<IOComponent?>)
    requires Sized(s, |interest|) && |domain| == |interest| && Synced(s, interest)
    requires |mask| == |data| == |image| && |index| == |interest| == 8 * |mask|
    requires View(image) == s.image && View(data) == domain && View(mask) == Delta(s.last, domain, interest)
    ensures ScanTo(mask, data, image, index, |index|).found ==
            Owners(index, Changed(interest, domain, s.last.bits), |index|)
  {
    DeltaReallyDiffers(s, domain, interest);
    ScanExact(mask, data, image, index, |index|);
    assert View(mask) == Changed(interest, domain, s.last.bits);
  }
}
