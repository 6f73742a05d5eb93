/**
 ECInterface::collectState: the EtherCAT domain is compared with the image kept from the last
 pass, giving the data to hand on and a mask of the interesting bits that changed.
 */
module Collecting {
  import opened Bits

  /** The domain as last seen by collectState; nothing before its first pass. */
  datatype Snapshot = Nothing | Seen(bits: seq<bool>)

  predicate FitsSize(last: Snapshot, n: nat) {
    last.Seen? ==> |last.bits| == n
  }

  // ----- collectState -----

  /** The interesting bits that changed; all interesting bits the first time. */
  function Delta(last: Snapshot, domain: seq<bool>, interest: seq<bool>): (mask: seq<bool>)
    requires |domain| == |interest| && FitsSize(last, |domain|)
    ensures |mask| == |domain|
  {
    seq(|domain|, k requires 0 <= k < |domain| => interest[k] && (last.Seen? ==> domain[k] != last.bits[k]))
  }

  /** The numbers of the bits that are set, below a bound. */
  function OnesBelow(bits: seq<bool>, n: nat): set<nat>
    requires n <= |bits|
  {
    set k: nat | k < n && bits[k]
  }

  function Count(bits: seq<bool>, n: nat): nat
    requires n <= |bits|
  {
    if n == 0 then 0 else Count(bits, n - 1) + if bits[n - 1] then 1 else 0
  }

  lemma {:induction false} CountIsCardinality(bits: seq<bool>, n: nat)
    requires n <= |bits|
    ensures Count(bits, n) == |OnesBelow(bits, n)|
  {
    if n > 0 {
      CountIsCardinality(bits, n - 1);
      assert OnesBelow(bits, n) == if bits[n - 1] then OnesBelow(bits, n - 1) + {n - 1} else OnesBelow(bits, n - 1);
    }
  }

  lemma {:induction false} CountNone(bits: seq<bool>, a: nat, b: nat)
    requires a <= b <= |bits|
    requires forall k | a <= k < b :: !bits[k]
    ensures Count(bits, b) == Count(bits, a)
    decreases b
  {
    if a < b {
      CountNone(bits, a, b - 1);
    }
  }

  class DomainReader {
    const interest: array<Byte>       // app_process_mask
    var processData: array?<Byte>     // the domain at the last pass
    var updateData: array<Byte>
    var updateMask: array<Byte>

    ghost predicate Valid()
      reads this
    {
      && updateData != updateMask && updateData != interest && updateMask != interest
      && updateData.Length == updateMask.Length == interest.Length
      && (processData != null ==>
            processData != updateData && processData != updateMask && processData.Length == interest.Length)
    }

    ghost function Last(): Snapshot
      reads this`processData, processData
    {
      SnapshotOf(processData)
    }

    constructor (interest: array<Byte>)
      ensures Valid() && this.interest == interest && Last() == Nothing && fresh(updateData) && fresh(updateMask)
    {
      this.interest := interest;
      processData := null;
      updateData := new Byte[interest.Length](_ => ZERO);
      updateMask := new Byte[interest.Length](_ => ZERO);
    }

    /** collectState; ready stands for its tests of the master and the domain. */
    method CollectState(domain: array<Byte>, ready: bool) returns (affected: nat)
      requires Valid() && domain.Length == interest.Length
      requires domain != updateData && domain != updateMask && domain != interest
      modifies this`processData, updateData, updateMask
      ensures Valid() && updateData[..] == if ready then domain[..] else old(updateData[..])
      ensures !ready ==> affected == 0 && processData == old(processData) && updateMask[..] == old(updateMask[..])
      ensures ready ==> fresh(processData) && Last() == Seen(View(domain[..]))
      ensures ready ==> View(updateMask[..]) == Delta(old(Last()), View(domain[..]), View(interest[..]))
      ensures ready && old(Last()).Nothing? ==> affected == domain.Length
      ensures ready && old(Last()).Seen? ==>
                affected == |OnesBelow(View(updateMask[..]), 8 * domain.Length)|
    {
      affected := 0;
      if ready {
        affected := CollectMask(processData, domain, interest, updateMask);
        ghost var collected := updateMask[..];
        processData := new Byte[domain.Length](n requires 0 <= n < domain.Length reads domain => domain[n]);
        assert processData[..] == domain[..];
        forall n | 0 <= n < domain.Length {
          updateData[n] := domain[n];
        }
        assert updateMask[..] == collected && processData[..] == domain[..];
      }
    }
  }

  ghost function SnapshotOf(last: array?<Byte>): Snapshot
    reads last
  {
    if last == null then Nothing else Seen(View(last[..]))
  }

  /** The loop of collectState over the bytes of the domain. */
  method CollectMask(last: array?<Byte>, domain: array<Byte>, interest: array<Byte>, mask: array<Byte>)
    returns (affected: nat)
    requires domain.Length == interest.Length == mask.Length && (last != null ==> last.Length == mask.Length)
    requires mask != domain && mask != interest && mask != last
    modifies mask
    ensures View(mask[..]) == Delta(SnapshotOf(last), View(domain[..]), View(interest[..]))
    ensures affected == if last == null then domain.Length else |OnesBelow(View(mask[..]), 8 * domain.Length)|
  {
    if last == null {
      affected := 0;
      for i := 0 to domain.Length
        invariant affected == i
        invariant forall n | 0 <= n < i :: mask[n] == interest[n]
      {
        mask[i] := interest[i];
        affected := affected + 1;
      }
      assert mask[..] == interest[..];
      assert Delta(Nothing, View(domain[..]), View(interest[..])) == View(interest[..]);
    } else {
      affected := DiffAll(last, domain, interest, mask);
    }
  }

  method DiffAll(last: array<Byte>, domain: array<Byte>, interest: array<Byte>, mask: array<Byte>)
    returns (affected: nat)
    requires last.Length == domain.Length == interest.Length == mask.Length
    requires mask != domain && mask != interest && mask != last
    modifies mask
    ensures View(mask[..]) == Delta(Seen(View(last[..])), View(domain[..]), View(interest[..]))
    ensures affected == |OnesBelow(View(mask[..]), 8 * domain.Length)|
  {
    affected := 0;
    ghost var l, d, m := last[..], domain[..], interest[..];
    ghost var delta := Delta(Seen(View(l)), View(d), View(m));
    for i := 0 to domain.Length
      invariant last[..] == l && domain[..] == d && interest[..] == m
      invariant affected == Count(delta, 8 * i)
      invariant forall n | 0 <= n < i :: SameByte(mask[..i][n], delta, n)
    {
      DeltaByte(l, d, m, i);
      var diff, count := DiffByte(last[i], domain[i], interest[i], i, delta);
      ghost var before := mask[..i];
      mask[i] := diff;
      assert mask[..i] == before && mask[..i + 1] == before + [diff];
      affected := affected + count;
      assert affected == Count(delta, 8 * (i + 1));
    }
    assert mask[..mask.Length] == mask[..];
    DiffDone(mask[..], delta);
  }

  lemma {:induction false} DiffDone(mask: seq<Byte>, delta: seq<bool>)
    requires |delta| == 8 * |mask| && forall n | 0 <= n < |mask| :: SameByte(mask[n], delta, n)
    ensures View(mask) == delta && Count(delta, 8 * |mask|) == |OnesBelow(delta, 8 * |mask|)|
  {
    SameView(mask, delta);
    CountIsCardinality(delta, 8 * |mask|);
  }

  lemma DeltaByte(last: seq<Byte>, domain: seq<Byte>, interest: seq<Byte>, i: nat)
    requires i < |domain| == |interest| == |last|
    ensures forall j | 0 <= j < 8 ::
              Delta(Seen(View(last)), View(domain), View(interest))[8 * i + j]
              == (interest[i][j] && domain[i][j] != last[i][j])
  {
    forall j | 0 <= j < 8
      ensures Delta(Seen(View(last)), View(domain), View(interest))[8 * i + j]
           == (interest[i][j] && domain[i][j] != last[i][j])
    {
      ViewAt(domain, i, j);
      ViewAt(interest, i, j);
      ViewAt(last, i, j);
    }
  }

  predicate SameByte(b: Byte, bits: seq<bool>, n: nat) {
    8 * n + 8 <= |bits| && forall j | 0 <= j < 8 :: b[j] == bits[8 * n + j]
  }

  lemma SameView(data: seq<Byte>, bits: seq<bool>)
    requires |bits| == 8 * |data|
    requires forall n | 0 <= n < |data| :: SameByte(data[n], bits, n)
    ensures View(data) == bits
  {
    forall k: nat | k < |bits| ensures View(data)[k] == bits[k] {
      assert SameByte(data[k / 8], bits, k / 8);
      assert bits[8 * (k / 8) + k % 8] == bits[k];
    }
  }

  /** The changed interesting bits of byte i, and how many they are. */
  method DiffByte(last: Byte, now: Byte, interest: Byte, ghost i: nat, ghost delta: seq<bool>)
    returns (mask: Byte, count: nat)
    requires 8 * i + 8 <= |delta|
    requires forall j | 0 <= j < 8 :: delta[8 * i + j] == (interest[j] && now[j] != last[j])
    ensures SameByte(mask, delta, i)
    ensures Count(delta, 8 * (i + 1)) == Count(delta, 8 * i) + count
  {
    mask, count := ZERO, 0;
    if last != now {
      for j := 0 to 8
        invariant forall k | 0 <= k < 8 :: mask[k] == (k < j && interest[k] && now[k] != last[k])
        invariant Count(delta, 8 * i + j) == Count(delta, 8 * i) + count
      {
        assert delta[8 * i + j] == (interest[j] && now[j] != last[j]);
        if interest[j] {
          if now[j] != last[j] {
            mask := mask[j := true];
            count := count + 1;
          }
        }
      }
    } else {
      forall k | 8 * i <= k < 8 * i + 8 ensures !delta[k] {
        var j := k - 8 * i;
        assert delta[8 * i + j] == (interest[j] && now[j] != last[j]);
      }
      CountNone(delta, 8 * i, 8 * i + 8);
    }
  }
}
