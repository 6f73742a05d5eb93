/**
 The output path: commands to output components are written into the update image,
 collected under a mask by getUpdates, and merged into the EtherCAT domain by updateDomain.
 */
module Outputs {
  import opened Options
  import opened Bits
  import opened IoMap

  datatype Command = On | Off | Set(v: Word)

  // ----- what a command means in bits -----

  /** Bit n of a component that has taken the command. */
  predicate CommandBit(cmd: Command, n: nat) {
    match cmd
    case On => true
    case Off => false
    case Set(v) => BitOf(v, n)
  }

  /** The commands that markChange turns into data: on/off for one bit, values for 8, 16 and 32. */
  predicate Supported(c: IOComponent, cmd: Command) {
    if cmd.Set? then c.bitlen in {8, 16, 32} else c.bitlen == 1
  }

  /** The update image after a command. */
  function Commanded(bits: seq<bool>, c: IOComponent, cmd: Command): (r: seq<bool>)
    ensures |r| == |bits|
  {
    if Supported(c, cmd)
    then seq(|bits|, k requires 0 <= k < |bits| => if Covers(c, k) then CommandBit(cmd, k - FirstBit(c)) else bits[k])
    else bits
  }

  /** A component that shows Set(v) reads back as v, cut to its width. */
  lemma {:induction false} ShownValue(bits: seq<bool>, c: IOComponent, v: Word)
    requires WellPlaced(c) && c.bitlen in {8, 16, 32} && FirstBit(c) + c.bitlen <= |bits|
    ensures var shown := Commanded(bits, c, Set(v))[FirstBit(c)..FirstBit(c) + c.bitlen];
            shown == ValueBits(v, c.bitlen) && (v < Pow2(c.bitlen) ==> FromBits(shown) == v)
  {
    var shown := Commanded(bits, c, Set(v))[FirstBit(c)..FirstBit(c) + c.bitlen];
    ShownBits(bits, c, v);
    if v < Pow2(c.bitlen) {
      ReadBack(v, c.bitlen);
    }
  }

  lemma {:induction false} ShownBits(bits: seq<bool>, c: IOComponent, v: Word)
    requires c.bitlen in {8, 16, 32} && FirstBit(c) + c.bitlen <= |bits|
    ensures Commanded(bits, c, Set(v))[FirstBit(c)..FirstBit(c) + c.bitlen] == ValueBits(v, c.bitlen)
  {
    var shown := Commanded(bits, c, Set(v))[FirstBit(c)..FirstBit(c) + c.bitlen];
    forall i | 0 <= i < c.bitlen
      ensures shown[i] == ValueBits(v, c.bitlen)[i]
    {
      assert Covers(c, FirstBit(c) + i);
    }
  }

  predicate IsOutput(c: IOComponent) {
    c.direction == Output || c.direction == Bidirectional
  }

  // ----- whole runs of the output path -----

  /** Commands, ends of processAll (components read, outputs that match) and sends (owners disabled). */
  datatype Step =
    | Accept(c: IOComponent, cmd: Command)
    | Settle(updated: set<IOComponent>, matching: set<IOComponent>)
    | Send(disabled: set<IOComponent>)

  /** The update image, the pending outputs, the sent flag, and what was commanded since the last send. */
  datatype Pending = Pending(bits: seq<bool>, out: set<IOComponent>, sent: bool, since: set<IOComponent>)

  function Next(s: Pending, step: Step): Pending {
    match step
    case Accept(c, cmd) => Pending(Commanded(s.bits, c, cmd), s.out + {c}, false, s.since + {c})
    case Settle(updated, matching) => if s.sent then s.(out := s.out - updated - matching) else s
    case Send(disabled) => if s.out == {} then s else Pending(s.bits, s.out - disabled, true, {})
  }

  function Run(s: Pending, steps: seq<Step>): Pending
    decreases |steps|
  {
    if steps == [] then s else Run(Next(s, steps[0]), steps[1..])
  }

  /** A pending output commanded since the last send is never dropped. */
  lemma {:induction false} CommandedStaysPending(s: Pending, steps: seq<Step>)
    requires s.since <= s.out && (s.sent ==> s.since == {})
    ensures Run(s, steps).since <= Run(s, steps).out
    ensures Run(s, steps).sent ==> Run(s, steps).since == {}
    decreases |steps|
  {
    if steps != [] {
      CommandedStaysPending(Next(s, steps[0]), steps[1..]);
    }
  }

  /** The last command of a run to a component; failing that, the one given. */
  function LastCommand(steps: seq<Step>, c: IOComponent, before: Option<Command>): Option<Command> {
    if steps == [] then before
    else
      LastCommand(steps[1..], c, if steps[0].Accept? && steps[0].c == c then Some(steps[0].cmd) else before)
  }

  /** The last command of a run that a component could take; failing that, the one given. */
  function LastTaken(steps: seq<Step>, c: IOComponent, before: Option<Command>): (r: Option<Command>)
    ensures before.Some? ==> r.Some?
  {
    if steps == [] then before
    else
      var step := steps[0];
      LastTaken(steps[1..], c, if step.Accept? && step.c == c && Supported(c, step.cmd) then Some(step.cmd) else before)
  }

  ghost predicate Apart(cs: set<IOComponent>) {
    forall c, d, k: nat | c in cs && d in cs && c != d && Covers(c, k) :: !Covers(d, k)
  }

  predicate Commands(steps: seq<Step>, cs: set<IOComponent>) {
    forall step <- steps | step.Accept? :: step.c in cs
  }

  predicate Shows(bits: seq<bool>, c: IOComponent, cmd: Command) {
    forall k: nat | k < |bits| && Covers(c, k) :: bits[k] == CommandBit(cmd, k - FirstBit(c))
  }

  /** The bits of a component are the same in two images. */
  predicate Same(a: seq<bool>, b: seq<bool>, c: IOComponent)
    requires |a| == |b|
  {
    forall k: nat | k < |a| && Covers(c, k) :: a[k] == b[k]
  }

  /** In every run over components that do not overlap, the update image shows what each one last took, or what it began with. */
  lemma {:induction false} ImageShowsLastTaken(s: Pending, steps: seq<Step>, cs: set<IOComponent>, c: IOComponent,
                                               before: Option<Command>)
    requires Apart(cs) && c in cs && Commands(steps, cs)
    requires before.Some? ==> Shows(s.bits, c, before.value)
    ensures |Run(s, steps).bits| == |s.bits|
    ensures var last := LastTaken(steps, c, before);
            if last.Some? then Shows(Run(s, steps).bits, c, last.value) else Same(Run(s, steps).bits, s.bits, c)
    decreases |steps|
  {
    if steps != [] {
      var step := steps[0];
      var now := if step.Accept? && step.c == c && Supported(c, step.cmd) then Some(step.cmd) else before;
      assert step in steps;
      ImageShowsLastTaken(Next(s, step), steps[1..], cs, c, now);
      assert now.None? ==> Same(Next(s, step).bits, s.bits, c);
    }
  }

  /** A last command that the component can take is the one it took last. */
  lemma {:induction false} LastIsTaken(steps: seq<Step>, c: IOComponent, before: Option<Command>, taken: Option<Command>)
    requires before.Some? && Supported(c, before.value) ==> taken == before
    ensures var last := LastCommand(steps, c, before);
            last.Some? && Supported(c, last.value) ==> LastTaken(steps, c, taken) == last
    decreases |steps|
  {
    if steps != [] {
      var step := steps[0];
      var mine := step.Accept? && step.c == c;
      LastIsTaken(steps[1..], c, if mine then Some(step.cmd) else before,
                  if mine && Supported(c, step.cmd) then Some(step.cmd) else taken);
    }
  }

  /** In every run over components that do not overlap, the update image shows a last command that can be taken. */
  lemma {:induction false} ImageShowsLastCommand(s: Pending, steps: seq<Step>, cs: set<IOComponent>, c: IOComponent)
    requires Apart(cs) && c in cs && Commands(steps, cs)
    ensures |Run(s, steps).bits| == |s.bits|
    ensures var last := LastCommand(steps, c, None);
            last.Some? && Supported(c, last.value) ==> Shows(Run(s, steps).bits, c, last.value)
  {
    ImageShowsLastTaken(s, steps, cs, c, None);
    LastIsTaken(steps, c, None, None);
  }

  /** The image that shows the opposite of a command everywhere. */
  function Opposite(c: IOComponent, cmd: Command, n: nat): seq<bool> {
    seq(n, k requires 0 <= k < n => FirstBit(c) <= k && !CommandBit(cmd, k - FirstBit(c)))
  }

  /**
   The exact condition: whatever the run and whatever the image held before, a component's last command
   shows if and only if it is one that the component can take.
   */
  lemma {:induction false} CommandShowsExactly(cs: set<IOComponent>, c: IOComponent, cmd: Command, n: nat)
    requires Apart(cs) && c in cs && c.bitlen > 0 && FirstBit(c) < n
    ensures (forall bits: seq<bool>, steps: seq<Step> |
               |bits| == n && Commands(steps, cs) && LastCommand(steps, c, None) == Some(cmd) ::
               Shows(Run(Pending(bits, {}, false, {}), steps).bits, c, cmd))
            <==> Supported(c, cmd)
  {
    if Supported(c, cmd) {
      forall bits: seq<bool>, steps: seq<Step> |
        |bits| == n && Commands(steps, cs) && LastCommand(steps, c, None) == Some(cmd)
        ensures Shows(Run(Pending(bits, {}, false, {}), steps).bits, c, cmd)
      {
        ImageShowsLastCommand(Pending(bits, {}, false, {}), steps, cs, c);
      }
    } else {
      var bits, steps := Opposite(c, cmd, n), [Accept(c, cmd)];
      var s := Pending(bits, {}, false, {});
      assert steps[1..] == [] && Run(s, steps) == Run(Next(s, steps[0]), []) == Next(s, steps[0]);
      assert LastCommand(steps, c, None) == LastCommand([], c, Some(cmd)) == Some(cmd);
      assert Covers(c, FirstBit(c)) && bits[FirstBit(c)] != CommandBit(cmd, 0);
      assert |bits| == n && Commands(steps, cs) && !Shows(Run(s, steps).bits, c, cmd);
    }
  }

  /** A mask bit is set exactly when a pending output covers it. */
  ghost predicate MaskOf(mask: seq<bool>, out: set<IOComponent>) {
    forall k: nat | k < |mask| :: mask[k] <==> exists c <- out :: IsOutput(c) && Covers(c, k)
  }

  /** The domain after the masked bits of the first size bytes have been copied to it. */
  function Delivered(domain: seq<bool>, update: seq<bool>, mask: seq<bool>, size: nat): (r: seq<bool>)
    requires |domain| == |update| == |mask|
    ensures |r| == |domain|
  {
    seq(|domain|, k requires 0 <= k < |domain| => if k < 8 * size && mask[k] then update[k] else domain[k])
  }

  /**
   The output path end to end: after any run, sending makes the sent domain bits of each pending output
   show its last command, if it is one that the component can take, and otherwise what the component last
   took or the image began with; bits beyond those sent, and bits outside the mask, do not change.
   */
  lemma {:induction false} OutputsReachDomain(s: Pending, steps: seq<Step>, cs: set<IOComponent>, c: IOComponent,
                                              cmd: Command, domain: seq<bool>, mask: seq<bool>, size: nat)
    requires Apart(cs) && c in cs && Commands(steps, cs) && LastCommand(steps, c, None) == Some(cmd)
    requires |Run(s, steps).bits| == |domain| == |mask|
    requires MaskOf(mask, Run(s, steps).out) && c in Run(s, steps).out && IsOutput(c)
    ensures |s.bits| == |domain|
    ensures var sent, taken := Delivered(domain, Run(s, steps).bits, mask, size), LastTaken(steps, c, None);
            && (Supported(c, cmd) ==> taken == Some(cmd))
            && (forall k: nat | k < |domain| && Covers(c, k) ::
                  sent[k] == if k >= 8 * size then domain[k]
                             else if taken.Some? then CommandBit(taken.value, k - FirstBit(c)) else s.bits[k])
            && (forall k: nat | k < |domain| && !mask[k] :: sent[k] == domain[k])
  {
    ImageShowsLastTaken(s, steps, cs, c, None);
    LastIsTaken(steps, c, None, None);
  }

  /** The mask of one pending output. */
  function MaskFor(c: IOComponent, n: nat): seq<bool> {
    seq(n, k requires 0 <= k < n => IsOutput(c) && Covers(c, k))
  }

  /** Whether, in every run and from every image and domain, sending makes the domain show the component's last command. */
  lemma {:induction false} DomainShowsExactly(cs: set<IOComponent>, c: IOComponent, cmd: Command, n: nat, size: nat)
    requires Apart(cs) && c in cs && c.bitlen > 0 && FirstBit(c) + c.bitlen <= n && IsOutput(c)
    ensures (forall bits: seq<bool>, domain: seq<bool>, mask: seq<bool>, steps: seq<Step> |
               && |bits| == |domain| == |mask| == n && Commands(steps, cs) && LastCommand(steps, c, None) == Some(cmd)
               && |Run(Pending(bits, {}, false, {}), steps).bits| == n
               && MaskOf(mask, Run(Pending(bits, {}, false, {}), steps).out) && c in Run(Pending(bits, {}, false, {}), steps).out ::
               Shows(Delivered(domain, Run(Pending(bits, {}, false, {}), steps).bits, mask, size), c, cmd))
            <==> Supported(c, cmd) && FirstBit(c) + c.bitlen <= 8 * size
  {
    if Supported(c, cmd) && FirstBit(c) + c.bitlen <= 8 * size {
      forall bits: seq<bool>, domain: seq<bool>, mask: seq<bool>, steps: seq<Step> |
        && |bits| == |domain| == |mask| == n && Commands(steps, cs) && LastCommand(steps, c, None) == Some(cmd)
        && |Run(Pending(bits, {}, false, {}), steps).bits| == n
        && MaskOf(mask, Run(Pending(bits, {}, false, {}), steps).out) && c in Run(Pending(bits, {}, false, {}), steps).out
        ensures Shows(Delivered(domain, Run(Pending(bits, {}, false, {}), steps).bits, mask, size), c, cmd)
      {
        OutputsReachDomain(Pending(bits, {}, false, {}), steps, cs, c, cmd, domain, mask, size);
      }
    } else {
      NotShown(cs, c, cmd, n, size);
    }
  }

  /** One command, an image and a domain that show the opposite. */
  lemma {:induction false} NotShown(cs: set<IOComponent>, c: IOComponent, cmd: Command, n: nat, size: nat)
    requires c in cs && c.bitlen > 0 && FirstBit(c) + c.bitlen <= n && IsOutput(c)
    requires !(Supported(c, cmd) && FirstBit(c) + c.bitlen <= 8 * size)
    ensures var bits, mask, steps := Opposite(c, cmd, n), MaskFor(c, n), [Accept(c, cmd)];
            var r := Run(Pending(bits, {}, false, {}), steps);
            && |bits| == |mask| == n && Commands(steps, cs) && LastCommand(steps, c, None) == Some(cmd)
            && |r.bits| == n && MaskOf(mask, r.out) && c in r.out
            && !Shows(Delivered(bits, r.bits, mask, size), c, cmd)
  {
    var bits, mask, steps := Opposite(c, cmd, n), MaskFor(c, n), [Accept(c, cmd)];
    var s := Pending(bits, {}, false, {});
    assert steps[1..] == [] && Run(s, steps) == Run(Next(s, steps[0]), []) == Next(s, steps[0]);
    assert LastCommand(steps, c, None) == LastCommand([], c, Some(cmd)) == Some(cmd);
    assert Next(s, steps[0]).out == {c};
    assert MaskOf(mask, {c}) by {
      assert c in {c};
    }
    var k := if Supported(c, cmd) then FirstBit(c) + c.bitlen - 1 else FirstBit(c);
    assert Covers(c, k) && bits[k] != CommandBit(cmd, k - FirstBit(c));
    assert Delivered(bits, Run(s, steps).bits, mask, size)[k] == bits[k];
  }

  /** A value for a four-bit output is not written, and sending puts the stale update bits over what the domain shows. */
  lemma {:induction false} FourBitsIgnored(c: IOComponent)
    requires c.offset == 0 && c.bitpos == 0 && c.bitlen == 4 && c.direction == Output
    ensures var bits := [false, false, false, false, false, false, false, false];
            var domain := [true, true, true, true, false, false, false, false];
            var r := Next(Pending(bits, {}, false, {}), Accept(c, Set(5)));
            && WellPlaced(c) && r.bits == bits && r.out == {c} && MaskOf(MaskFor(c, 8), r.out)
            && Delivered(domain, r.bits, MaskFor(c, 8), 1) == bits
            && !Shows(bits, c, Set(5)) && !Shows(domain, c, Set(5))
  {
    assert c in {c};
    assert Covers(c, 0) && BitOf(5, 0);
    assert Covers(c, 1) && BitOf(5, 1) == BitOf(2, 0);
  }

  // ----- how much is sent -----

  /** The lowest and the highest byte in use, as setupIOMap measures them. */
  ghost predicate Measured(queue: seq<IOComponent>, minOffset: nat, maxOffset: nat) {
    && (forall c <- queue :: minOffset <= FirstByte(c) && LastByte(c) <= maxOffset)
    && (exists c <- queue :: FirstByte(c) == minOffset)
    && (exists c <- queue :: LastByte(c) == maxOffset)
  }

  /** Every bit of the pending outputs reaches the domain, whatever update and domain hold. */
  ghost predicate AllReach(out: set<IOComponent>, n: nat, size: nat) {
    forall domain: seq<bool>, update: seq<bool>, mask: seq<bool> |
      |domain| == |update| == |mask| == n && MaskOf(mask, out) ::
      forall c, k: nat | c in out && k < n && Covers(c, k) :: Delivered(domain, update, mask, size)[k] == update[k]
  }

  /** Only the first maxOffset - minOffset + 1 bytes are sent: the outputs that end there are those that reach the domain. */
  lemma {:induction false} SentWholeExactly(queue: seq<IOComponent>, out: set<IOComponent>, minOffset: nat, maxOffset: nat)
    requires Measured(queue, minOffset, maxOffset)
    requires forall c <- out :: c in queue && IsOutput(c) && WellPlaced(c) && c.bitlen > 0
    ensures minOffset <= maxOffset
    ensures AllReach(out, 8 * (maxOffset + 1), maxOffset - minOffset + 1)
            <==> forall c <- out :: LastByte(c) <= maxOffset - minOffset
  {
    forall c | c in out
      ensures c.bitlen > 0 && IsOutput(c) && FirstBit(c) + c.bitlen <= 8 * (maxOffset + 1)
      ensures FirstBit(c) + c.bitlen <= 8 * (maxOffset - minOffset + 1) <==> LastByte(c) <= maxOffset - minOffset
    {
      EndsIn(c);
    }
    ReachExactly(out, 8 * (maxOffset + 1), maxOffset - minOffset + 1);
  }

  lemma {:induction false} EndsIn(c: IOComponent)
    requires WellPlaced(c) && c.bitlen > 0
    ensures 8 * LastByte(c) < FirstBit(c) + c.bitlen <= 8 * LastByte(c) + 8
  {
    PlacedInside(c);
  }

  lemma {:induction false} ReachExactly(out: set<IOComponent>, n: nat, size: nat)
    requires forall c <- out :: IsOutput(c) && c.bitlen > 0 && FirstBit(c) + c.bitlen <= n
    ensures AllReach(out, n, size) <==> forall c <- out :: FirstBit(c) + c.bitlen <= 8 * size
  {
    if c :| c in out && FirstBit(c) + c.bitlen > 8 * size {
      NotReaching(out, c, n, size);
    } else {
      Reaching(out, n, size);
    }
  }

  lemma {:induction false} Reaching(out: set<IOComponent>, n: nat, size: nat)
    requires forall c <- out :: IsOutput(c) && FirstBit(c) + c.bitlen <= 8 * size
    ensures AllReach(out, n, size)
  {
  }

  lemma {:induction false} NotReaching(out: set<IOComponent>, c: IOComponent, n: nat, size: nat)
    requires c in out && c.bitlen > 0 && FirstBit(c) + c.bitlen <= n && 8 * size < FirstBit(c) + c.bitlen
    ensures !AllReach(out, n, size)
  {
    var last := FirstBit(c) + c.bitlen - 1;
    var domain, update := seq(n, _ => false), seq(n, _ => true);
    var mask := seq(n, k requires 0 <= k < n => exists d <- out :: IsOutput(d) && Covers(d, k));
    assert MaskOf(mask, out);
    assert Covers(c, last) && Delivered(domain, update, mask, size)[last] != update[last];
  }

  /** If the last byte in use is that of a pending output, every output reaches the domain exactly when byte 0 is in use. */
  lemma {:induction false} AllSentExactly(queue: seq<IOComponent>, out: set<IOComponent>, minOffset: nat, maxOffset: nat)
    requires Measured(queue, minOffset, maxOffset)
    requires forall c <- out :: c in queue && IsOutput(c) && WellPlaced(c) && c.bitlen > 0
    requires exists c <- out :: LastByte(c) == maxOffset
    ensures minOffset <= maxOffset
    ensures AllReach(out, 8 * (maxOffset + 1), maxOffset - minOffset + 1) <==> exists c <- queue :: FirstByte(c) == 0
  {
    SentWholeExactly(queue, out, minOffset, maxOffset);
  }

  /** A 16-bit output at byte 2, alone: two bytes are sent, bytes 0 and 1, and the domain keeps the old value of the output. */
  lemma {:induction false} CutOff(c: IOComponent, domain: seq<bool>, update: seq<bool>)
    requires c.offset == 2 && c.bitpos == 0 && c.bitlen == 16 && c.direction == Output && |domain| == |update| == 32
    ensures Measured([c], 2, 3) && WellPlaced(c) && MaskOf(MaskFor(c, 32), {c})
    ensures Delivered(domain, update, MaskFor(c, 32), 3 - 2 + 1) == domain
  {
    assert c in [c] && c in {c};
    assert FirstByte(c) == 2 && LastByte(c) == 3;
  }

  // ----- the queue of pending outputs -----

  /** The components whose pending value is the value last read. */
  ghost function Matching(cs: set<IOComponent>): set<IOComponent>
    reads cs
  {
    set c | c in cs && c.pendingValue == c.value
  }

  /** The components none of whose owners is enabled. */
  ghost function Disabled(cs: set<IOComponent>): set<IOComponent>
    reads cs
  {
    set c | c in cs && !c.ownersEnabled
  }

  class OutputQueue {
    const image: array<Byte>         // io_process_data
    const minOffset: nat
    const maxOffset: nat
    var update: array?<Byte>         // update_data
    var out: set<IOComponent>        // updatedComponentsOut
    var sent: bool                   // updates_sent
    var waiting: nat                 // outputs_waiting
    ghost var since: set<IOComponent>  // commanded since the last send

    ghost predicate Valid()
      reads this
    {
      && image.Length == maxOffset + 1 && minOffset <= maxOffset
      && (update != null ==> update != image && update.Length == image.Length)
      && (forall c <- out :: Fits(c))
    }

    predicate Fits(c: IOComponent) {
      WellPlaced(c) && LastByte(c) <= maxOffset
    }

    /** The update image; before its first use it is the process image. */
    ghost function UpdateBits(): seq<bool>
      reads this`update, image, update
    {
      if update == null then View(image[..]) else View(update[..])
    }

    ghost function State(): Pending
      reads this, image, update
    {
      Pending(UpdateBits(), out, sent, since)
    }

    constructor (image: array<Byte>, minOffset: nat, maxOffset: nat)
      requires image.Length == maxOffset + 1 && minOffset <= maxOffset
      ensures Valid() && this.image == image && this.minOffset == minOffset && this.maxOffset == maxOffset
      ensures update == null && State() == Pending(View(image[..]), {}, false, {})
    {
      this.image, this.minOffset, this.maxOffset := image, minOffset, maxOffset;
      update, out, sent, waiting, since := null, {}, false, 0, {};
    }

    method GetUpdateData() returns (data: array<Byte>)
      requires Valid()
      modifies this`update
      ensures Valid() && update == data && UpdateBits() == old(UpdateBits())
      ensures data == old(update) || (old(update) == null && fresh(data))
    {
      if update == null {
        data := new Byte[image.Length](i requires 0 <= i < image.Length reads image => image[i]);
        assert data[..] == image[..];
        update := data;
      } else {
        data := update;
      }
    }

    /** Writes the pending event of a component into the update image. */
    method MarkChange(c: IOComponent)
      requires Valid() && Fits(c)
      modifies this`update, this`sent, update, c`lastEvent
      ensures Valid() && update != null && (update == old(update) || (old(update) == null && fresh(update)))
      ensures sent ==> old(sent)
      ensures UpdateBits() == AfterEvent(old(UpdateBits()), c, old(c.lastEvent), c.pendingValue)
    {
      var data := GetUpdateData();
      PlacedInside(c);
      if c.bitlen == 1 {
        var changed := WriteBit(data, c, c.lastEvent);
        if changed {
          sent := false;
        }
        c.lastEvent := NoEvent;
      } else if c.lastEvent == Change {
        if c.bitlen in {8, 16, 32} {
          WriteValue(data, c, c.pendingValue);
        }
        c.lastEvent := NoEvent;
        sent := false;
      }
    }

    /** Output::turnOn and Output::turnOff, which only class Output has, and IOComponent::setValue. */
    method Accept(c: IOComponent, cmd: Command)
      requires Valid() && Fits(c) && (cmd.Set? || c.direction == Output)
      modifies this`update, this`sent, this`out, this`waiting, this`since, update, c`lastEvent, c`pendingValue
      ensures Valid() && update != null && (update == old(update) || (old(update) == null && fresh(update)))
      ensures State() == Next(old(State()), Step.Accept(c, cmd)) && waiting == old(waiting) + 1
      ensures c.pendingValue == if cmd.Set? then cmd.v else old(c.pendingValue)
    {
      match cmd {
        case On => c.lastEvent := TurnOn;
        case Off => c.lastEvent := TurnOff;
        case Set(v) =>
          c.pendingValue := v;
          c.lastEvent := Change;
      }
      out := out + {c};
      sent := false;
      since := since + {c};
      waiting := waiting + 1;
      MarkChange(c);
    }

    /** Forgets pending outputs whose owners are all disabled, after marking them one last time. */
    method GenerateUpdateMask() returns (mask: array<Byte>)
      requires Valid() && out != {}
      modifies this`out
      ensures Valid() && fresh(mask) && mask.Length == maxOffset + 1
      ensures MaskOf(View(mask[..]), old(out))
      ensures out == old(out) - old(Disabled(out))
    {
      mask := new Byte[maxOffset + 1](_ => ZERO);
      var rest := out;
      while rest != {}
        invariant rest <= out <= old(out) && fresh(mask)
        invariant forall c <- old(out) :: c in out <==> c in rest || c.ownersEnabled
        invariant CoveredBits(mask[..], old(out) - rest)
      {
        var c :| c in rest;
        ghost var before := mask[..];
        if IsOutput(c) {
          MarkComponent(mask, c);
        }
        MaskGrows(before, mask[..], old(out) - rest, c);
        assert old(out) - rest + {c} == old(out) - (rest - {c});
        rest := rest - {c};
        if !c.ownersEnabled {
          out := out - {c};
        }
      }
      assert old(out) - rest == old(out);
      MaskByBits(mask[..], old(out));
    }

    /** getUpdates: nothing when no output is pending, else the update image, its mask and a length. */
    method GetUpdates() returns (any: bool, size: nat, data: array<Byte>, mask: array<Byte>)
      requires Valid()
      modifies this`out, this`update
      ensures Valid() && any == (old(out) != {}) && UpdateBits() == old(UpdateBits())
      ensures update == old(update) || (old(update) == null && fresh(update))
      ensures any ==>
                && size == maxOffset - minOffset + 1
                && data == update && fresh(mask) && mask.Length == maxOffset + 1
                && MaskOf(View(mask[..]), old(out))
                && out == old(out) - old(Disabled(out))
      ensures !any ==> out == {}
    {
      data, mask := image, image;
      any, size := out != {}, 0;
      if any {
        mask := GenerateUpdateMask();
        size := maxOffset - minOffset + 1;
        ghost var marked := mask[..];
        data := GetUpdateData();
        assert mask[..] == marked;
      }
    }

    /** Sends the pending outputs to the domain. */
    method Send(domain: array<Byte>)
      requires Valid() && domain.Length == maxOffset + 1 && domain != image && domain != update
      modifies this`out, this`update, this`sent, this`since, domain
      ensures Valid() && State() == Next(old(State()), Step.Send(old(Disabled(out))))
      ensures old(out) == {} ==> domain[..] == old(domain[..])
      ensures old(out) != {} ==>
                exists mask: seq<bool> ::
                  && |mask| == 8 * domain.Length && MaskOf(mask, old(out))
                  && View(domain[..]) ==
                     Delivered(old(View(domain[..])), old(UpdateBits()), mask, maxOffset - minOffset + 1)
    {
      var any, size, data, mask := GetUpdates();
      if any {
        UpdateDomain(size, data, mask, domain);
        sent, since := true, {};
      }
    }

    /** The end of processAll: components just read, and outputs the hardware already shows, are no longer pending. */
    method Settle(updated: set<IOComponent>)
      requires Valid()
      modifies this`out, this`waiting
      ensures Valid()
      ensures State() == Next(old(State()), Step.Settle(updated, old(Matching(out))))
      ensures out == if sent then old(out) - updated - old(Matching(out)) else old(out)
      ensures waiting == |out|
    {
      ghost var before := State();
      if sent {
        DropTwice(out, updated);
        var left := DropMatching(out - updated);
        out := left;
      }
      waiting := |out|;
      assert State() == before.(out := out);
    }
  }

  /** The update image once the pending event of a component has been marked. */
  function AfterEvent(bits: seq<bool>, c: IOComponent, event: Event, pending: Word): seq<bool> {
    match event
    case TurnOn => Commanded(bits, c, On)
    case TurnOff => Commanded(bits, c, Off)
    case Change => Commanded(bits, c, Set(pending))
    case NoEvent => bits
  }

  /** The one-bit case of markChange. */
  method WriteBit(data: array<Byte>, c: IOComponent, event: Event) returns (changed: bool)
    requires WellPlaced(c) && c.bitlen == 1 && c.offset < data.Length
    modifies data
    ensures View(data[..]) == AfterEvent(old(View(data[..])), c, event, 0)
  {
    var offset, bitpos := c.offset + c.bitpos / 8, c.bitpos % 8;
    var on := data[offset][bitpos];
    changed := false;
    if !on && event == TurnOn {
      data[offset] := data[offset][bitpos := true];
      changed := true;
    } else if on && event == TurnOff {
      data[offset] := data[offset][bitpos := false];
      changed := true;
    }
    ghost var before := old(data[..]);
    assert before[offset] == before[offset][bitpos := on];
    assert data[..] == before[offset := data[offset]];
    BitWritten(before, data[..], c, data[offset][bitpos]);
  }

  lemma BitWritten(before: seq<Byte>, after: seq<Byte>, c: IOComponent, on: bool)
    requires WellPlaced(c) && c.bitlen == 1 && c.offset < |before|
    requires after == before[c.offset := before[c.offset][c.bitpos := on]]
    ensures View(after) == Commanded(View(before), c, if on then On else Off)
    ensures on == before[c.offset][c.bitpos] ==> View(after) == View(before)
  {
    if on == before[c.offset][c.bitpos] {
      assert before[c.offset][c.bitpos := on] == before[c.offset];
      assert after == before;
    }
    forall k: nat | k < 8 * |before|
      ensures View(after)[k] == if k == FirstBit(c) then on else View(before)[k]
    {
    }
  }

  /** The cases of markChange for 8, 16 and 32 bits: the low bytes in little-endian order. */
  method WriteValue(data: array<Byte>, c: IOComponent, v: Word)
    requires WellPlaced(c) && c.bitlen in {8, 16, 32} && c.offset + c.bitlen / 8 <= data.Length
    modifies data
    ensures View(data[..]) == Commanded(old(View(data[..])), c, Set(v))
  {
    for b := 0 to c.bitlen / 8
      invariant forall i | 0 <= i < data.Length ::
                  data[i] == if c.offset <= i < c.offset + b then ByteOf(v, i - c.offset) else old(data[i])
    {
      data[c.offset + b] := ByteOf(v, b);
    }
    ValueWritten(old(data[..]), data[..], c, v);
  }

  /** Byte b of a value in little-endian order. */
  function ByteOf(v: Word, b: nat): Byte
    requires b < 4
  {
    seq(8, j requires 0 <= j < 8 => BitOf(v, 8 * b + j))
  }

  lemma ValueWritten(before: seq<Byte>, after: seq<Byte>, c: IOComponent, v: Word)
    requires WellPlaced(c) && c.bitlen in {8, 16, 32} && c.offset + c.bitlen / 8 <= |before| == |after|
    requires forall i | 0 <= i < |before| ::
               after[i] == if c.offset <= i < c.offset + c.bitlen / 8 then ByteOf(v, i - c.offset) else before[i]
    ensures View(after) == Commanded(View(before), c, Set(v))
  {
    forall k: nat | k < 8 * |before|
      ensures View(after)[k] == if Covers(c, k) then CommandBit(Set(v), k - FirstBit(c)) else View(before)[k]
    {
      ValueBit(before, after, c, v, k);
    }
    IsCommanded(View(before), View(after), c, Set(v));
  }

  lemma ValueBit(before: seq<Byte>, after: seq<Byte>, c: IOComponent, v: Word, k: nat)
    requires WellPlaced(c) && c.bitlen in {8, 16, 32} && c.offset + c.bitlen / 8 <= |before| == |after|
    requires k < 8 * |before|
    requires after[k / 8] == if c.offset <= k / 8 < c.offset + c.bitlen / 8 then ByteOf(v, k / 8 - c.offset)
                             else before[k / 8]
    ensures View(after)[k] == if Covers(c, k) then CommandBit(Set(v), k - FirstBit(c)) else View(before)[k]
  {
    assert Covers(c, k) <==> c.offset <= k / 8 < c.offset + c.bitlen / 8;
    if Covers(c, k) {
      assert k - FirstBit(c) == 8 * (k / 8 - c.offset) + k % 8;
    }
  }

  lemma IsCommanded(before: seq<bool>, after: seq<bool>, c: IOComponent, cmd: Command)
    requires Supported(c, cmd) && |before| == |after|
    requires forall k: nat | k < |before| ::
               after[k] == if Covers(c, k) then CommandBit(cmd, k - FirstBit(c)) else before[k]
    ensures after == Commanded(before, c, cmd)
  {}

  /** The outputs that the hardware does not show yet. */
  method DropMatching(cs: set<IOComponent>) returns (r: set<IOComponent>)
    ensures r == cs - Matching(cs)
  {
    r := cs;
    var rest := cs;
    while rest != {}
      invariant rest <= r <= cs
      invariant forall c <- cs :: c in r <==> c in rest || c.pendingValue != c.value
    {
      var c :| c in rest;
      if c.pendingValue == c.value {
        r := r - {c};
      }
      rest := rest - {c};
    }
  }

  lemma DropTwice(cs: set<IOComponent>, updated: set<IOComponent>)
    ensures (cs - updated) - Matching(cs - updated) == cs - updated - Matching(cs)
  {}

  ghost predicate CoveredBits(mask: seq<Byte>, out: set<IOComponent>) {
    forall i: nat, j: nat | i < |mask| && j < 8 ::
      mask[i][j] <==> exists c <- out :: IsOutput(c) && Covers(c, 8 * i + j)
  }

  lemma MaskByBits(mask: seq<Byte>, out: set<IOComponent>)
    requires CoveredBits(mask, out)
    ensures MaskOf(View(mask), out)
  {
    forall k: nat | k < 8 * |mask|
      ensures View(mask)[k] <==> exists c <- out :: IsOutput(c) && Covers(c, k)
    {
      assert 8 * (k / 8) + k % 8 == k;
    }
  }

  lemma MaskGrows(before: seq<Byte>, after: seq<Byte>, done: set<IOComponent>, c: IOComponent)
    requires |before| == |after| && CoveredBits(before, done)
    requires forall i: nat, j: nat | i < |before| && j < 8 ::
               after[i][j] <==> before[i][j] || (IsOutput(c) && Covers(c, 8 * i + j))
    ensures CoveredBits(after, done + {c})
  {
    forall i: nat, j: nat | i < |before| && j < 8
      ensures after[i][j] <==> exists d <- done + {c} :: IsOutput(d) && Covers(d, 8 * i + j)
    {
      if IsOutput(c) && Covers(c, 8 * i + j) {
        assert c in done + {c};
      } else if before[i][j] {
        var d :| d in done && IsOutput(d) && Covers(d, 8 * i + j);
        assert d in done + {c};
      }
    }
  }

  // ----- updateDomain and copyMaskedBits -----

  /** Copies the masked bits of one byte, lowest bit first. */
  method UpdateByte(pd: Byte, data: Byte, mask: Byte) returns (r: Byte)
    ensures MergedByte(r, pd, data, mask)
  {
    r := pd;
    for j := 0 to 8
      invariant forall k | 0 <= k < 8 :: r[k] == if k < j && mask[k] then data[k] else pd[k]
    {
      if mask[j] && r[j] != data[j] {
        if data[j] {
          r := r[j := true];
        } else {
          r := r[j := false];
        }
      }
    }
  }

  /** Merges the first size bytes of an update into the domain. */
  method UpdateDomain(size: nat, data: array<Byte>, mask: array<Byte>, domain: array<Byte>)
    requires size <= domain.Length == data.Length == mask.Length
    requires domain != data && domain != mask
    modifies domain
    ensures View(domain[..]) == Delivered(old(View(domain[..])), View(data[..]), View(mask[..]), size)
  {
    for i := 0 to size
      invariant forall n | 0 <= n < i :: MergedByte(domain[n], old(domain[n]), data[n], mask[n])
      invariant forall n | i <= n < domain.Length :: domain[n] == old(domain[n])
    {
      if mask[i] != ZERO && data[i] != domain[i] {
        domain[i] := UpdateByte(domain[i], data[i], mask[i]);
      }
    }
    IsDelivered(old(domain[..]), domain[..], data[..], mask[..], size);
  }

  lemma IsDelivered(before: seq<Byte>, after: seq<Byte>, data: seq<Byte>, mask: seq<Byte>, size: nat)
    requires size <= |before| == |after| == |data| == |mask|
    requires forall n | 0 <= n < size :: MergedByte(after[n], before[n], data[n], mask[n])
    requires forall n | size <= n < |before| :: after[n] == before[n]
    ensures View(after) == Delivered(View(before), View(data), View(mask), size)
  {}
}
