/**
 Throttled property updates of a channel. Changes of a machine that needs throttling are kept, the latest
 value per property, and sent together later. The claim is that the other side, once the kept values are
 sent, sees what it would see on a channel that sends every change at once.
 */
module Throttle {
  import opened Options

  type Machine = nat
  type Value = int

  /** A property change, or the message that reports it. */
  datatype Change = Change(machine: Machine, key: string, value: Value)

  /** What the definitions say about a machine. */
  datatype Traits = Traits(
    hasStateMachine: bool,
    localProperties: set<string>,    // of its class
    interface: set<string>,          // properties of the channel's interface for it
    needsThrottle: bool)

  /** The last value reported for a property. */
  function Last(s: seq<Change>, m: Machine, k: string): Option<Value> {
    if s == [] then None
    else if s[|s| - 1].machine == m && s[|s| - 1].key == k then Some(s[|s| - 1].value)
    else Last(s[..|s| - 1], m, k)
  }

  lemma {:induction false} LastSnoc(s: seq<Change>, c: Change, m: Machine, k: string)
    ensures Last(s + [c], m, k) == if c.machine == m && c.key == k then Some(c.value) else Last(s, m, k)
  {
    assert (s + [c])[..|s + [c]| - 1] == s;
  }

  /** No property is reported twice. */
  predicate Once(s: seq<Change>) {
    forall i, j | 0 <= i < j < |s| :: s[i].machine != s[j].machine || s[i].key != s[j].key
  }

  lemma {:induction false} OnceConcat(a: seq<Change>, b: seq<Change>, m: Machine)
    requires Once(a) && Once(b)
    requires (forall c | c in a :: c.machine != m) && forall c | c in b :: c.machine == m
    ensures Once(a + b)
  {
    assert forall i | 0 <= i < |a| :: a[i] in a;
    assert forall i | 0 <= i < |b| :: b[i] in b;
  }

  lemma {:induction false} LastHit(s: seq<Change>, n: seq<Change>, j: nat)
    requires Once(n) && j < |n|
    ensures Last(s + n, n[j].machine, n[j].key) == Some(n[j].value)
  {
    var front, c := n[..|n| - 1], n[|n| - 1];
    assert s + n == (s + front) + [c];
    LastSnoc(s + front, c, n[j].machine, n[j].key);
    if j < |front| {
      LastHit(s, front, j);
    }
  }

  lemma {:induction false} LastMiss(s: seq<Change>, n: seq<Change>, m: Machine, k: string)
    requires forall i | 0 <= i < |n| :: n[i].machine != m || n[i].key != k
    ensures Last(s + n, m, k) == Last(s, m, k)
  {
    if n == [] {
      assert s + n == s;
    } else {
      var front, c := n[..|n| - 1], n[|n| - 1];
      assert s + n == (s + front) + [c];
      LastSnoc(s + front, c, m, k);
      LastMiss(s, front, m, k);
    }
  }

  type Records = map<Machine, map<string, Value>>

  predicate Pending(t: Records, m: Machine, k: string) {
    m in t && k in t[m]
  }

  /** A channel that reports property changes of machines that are not shadows. */
  class Channel {
    const reportsProperties: bool
    const reportsLocal: bool
    const isPublisher: bool
    const throttles: bool               // throttle_time is not 0
    const traits: map<Machine, Traits>  // the machines that the channel knows about
    var active: bool                    // the state is ACTIVE
    var connected: bool                 // the subscription is connected
    var linkUp: bool                    // messages handed to the socket go out
    var machines: set<Machine>          // channel_machines that the filters allow
    var throttledItems: Records
    var sent: seq<Change>
    ghost var direct: seq<Change>       // what the channel would have sent without throttling

    constructor (reportsProperties: bool, reportsLocal: bool, isPublisher: bool, throttles: bool, traits: map<Machine, Traits>)
      ensures this.reportsProperties == reportsProperties && this.reportsLocal == reportsLocal
      ensures this.isPublisher == isPublisher && this.throttles == throttles && this.traits == traits
      ensures sent == [] && direct == [] && throttledItems == map[] && Valid() && Synced()
    {
      this.reportsProperties, this.reportsLocal := reportsProperties, reportsLocal;
      this.isPublisher, this.throttles, this.traits := isPublisher, throttles, traits;
      active, connected, linkUp, machines := false, false, false, {};
      throttledItems, sent, direct := map[], [], [];
    }

    /** What sendPropertyChangeMessage sends; also for a machine without a state machine. */
    predicate Sends(m: Machine, k: string) {
      && !reportsLocal && m in traits
      && !(traits[m].hasStateMachine && k in traits[m].localProperties)
      && (isPublisher || k in traits[m].interface)
    }

    /** The test that its callers make first. */
    predicate MayReport(m: Machine, k: string) {
      reportsLocal || (m in traits && traits[m].hasStateMachine && k !in traits[m].localProperties)
    }

    /** Whether a change of the property ever becomes a message. */
    predicate Passes(m: Machine, k: string) {
      MayReport(m, k) && Sends(m, k)
    }

    /** Reporting local changes lets every property past the first test, and silences them all at the second. */
    lemma {:induction false} LocalSilences(m: Machine, k: string)
      requires m in traits && traits[m].hasStateMachine && k !in traits[m].localProperties
      requires isPublisher || k in traits[m].interface
      ensures MayReport(m, k) && (Passes(m, k) <==> !reportsLocal)
    {
    }

    /** The value that the other side has, or will have once the kept values are sent. */
    function Seen(m: Machine, k: string): Option<Value>
      reads `throttledItems, `sent
    {
      if Pending(throttledItems, m, k) && Passes(m, k) then Some(throttledItems[m][k]) else Last(sent, m, k)
    }

    predicate Throttled(m: Machine) {
      throttles && reportsProperties && m in traits && traits[m].needsThrottle
    }

    /** Values are kept only for throttled machines, by a channel that reports properties. */
    ghost predicate Valid()
      reads `throttledItems
    {
      forall m | m in throttledItems :: Throttled(m)
    }

    /** Each property either has its latest value kept or has sent it already. */
    ghost predicate Synced()
      reads `throttledItems, `sent, `direct
    {
      SyncedWith(direct)
    }

    ghost predicate SyncedWith(d: seq<Change>)
      reads `throttledItems, `sent
    {
      forall m, k :: Seen(m, k) == Last(d, m, k)
    }

    /** sendPropertyChangeMessage, for a machine that is not a shadow. */
    method SendPropertyChangeMessage(m: Machine, k: string, v: Value)
      modifies `sent
      ensures sent == if linkUp && Sends(m, k) then old(sent) + [Change(m, k, v)] else old(sent)
    {
      if reportsLocal || m !in traits || (traits[m].hasStateMachine && k in traits[m].localProperties) {
        return;
      }
      if !isPublisher && k !in traits[m].interface {
        return;
      }
      if linkUp {
        sent := sent + [Change(m, k, v)];
      }
    }

    /** The value replaces one that is kept for the property already. */
    method Keep(m: Machine, k: string, v: Value)
      requires Valid() && Throttled(m)
      modifies `throttledItems
      ensures Valid()
      ensures old(Synced()) ==> SyncedWith(if Passes(m, k) then direct + [Change(m, k, v)] else direct)
    {
      var record := if m in throttledItems then throttledItems[m] else map[];
      throttledItems := throttledItems[m := record[k := v]];
      forall x, y
        ensures Last(direct + [Change(m, k, v)], x, y) == if m == x && k == y then Some(v) else Last(direct, x, y)
      {
        LastSnoc(direct, Change(m, k, v), x, y);
      }
      if old(Synced()) {
        forall x, y
          ensures Seen(x, y) == if Passes(m, k) && m == x && k == y then Some(v) else Last(direct, x, y)
        {
          assert old(Seen(x, y)) == Last(direct, x, y);
        }
      }
    }

    /** The change is reported at once, if it is to be reported. */
    method Report(m: Machine, k: string, v: Value)
      requires Valid() && !(throttles && m in traits && traits[m].needsThrottle)
      modifies `sent
      ensures sent == if linkUp && Passes(m, k) then old(sent) + [Change(m, k, v)] else old(sent)
      ensures linkUp && old(Synced()) ==> SyncedWith(if Passes(m, k) then direct + [Change(m, k, v)] else direct)
    {
      if MayReport(m, k) {
        SendPropertyChangeMessage(m, k, v);
      }
      if linkUp && old(Synced()) && Passes(m, k) {
        forall x, y
          ensures Seen(x, y) == Last(direct + [Change(m, k, v)], x, y)
        {
          assert old(Seen(x, y)) == Last(direct, x, y);
          LastSnoc(old(sent), Change(m, k, v), x, y);
          LastSnoc(direct, Change(m, k, v), x, y);
        }
      }
    }

    /** What sendPropertyChange does on this channel. */
    method SendPropertyChange(m: Machine, k: string, v: Value)
      requires Valid()
      modifies `throttledItems, `sent, `direct
      ensures Valid() && (linkUp && old(Synced()) ==> Synced())
      ensures direct == if active && m in machines && reportsProperties && linkUp && Passes(m, k)
                        then old(direct) + [Change(m, k, v)] else old(direct)
      ensures !throttles ==> sent == old(sent) + direct[|old(direct)|..] && throttledItems == old(throttledItems)
    {
      if m in traits && traits[m].hasStateMachine && k in traits[m].localProperties {
        return;
      }
      if !reportsProperties || !active || m !in machines {
        return;
      }
      if throttles && m in traits && traits[m].needsThrottle {
        Keep(m, k, v);
      } else {
        Report(m, k, v);
      }
      if linkUp && Passes(m, k) {
        direct := direct + [Change(m, k, v)];
      }
    }

    /** The message for a kept value. */
    predicate Reports(props: map<string, Value>, m: Machine, c: Change) {
      c.machine == m && c.key in props && props[c.key] == c.value && Passes(m, c.key)
    }

    predicate Due(kept: Records, c: Change) {
      c.machine in kept && Reports(kept[c.machine], c.machine, c)
    }

    /** The loop over the kept properties of one machine: each is sent and erased. */
    method Flush(m: Machine, kept: map<string, Value>) returns (ghost n: seq<Change>)
      modifies `sent
      ensures sent == old(sent) + n && Once(n)
      ensures forall c :: c in n <==> linkUp && Reports(kept, m, c)
    {
      var props := kept;
      n := [];
      while props != map[]
        invariant forall k | k in props :: k in kept && props[k] == kept[k]
        invariant sent == old(sent) + n && Once(n)
        invariant forall c :: c in n <==> linkUp && Reports(kept, m, c) && c.key !in props
        decreases |props|
      {
        var k :| k in props;
        var v := props[k];
        if MayReport(m, k) {
          SendPropertyChangeMessage(m, k, v);
        }
        if linkUp && Passes(m, k) {
          assert forall c | c in n :: c.key != k;
          n := n + [Change(m, k, v)];
        }
        props := props - {k};
      }
    }

    /** Sending kept values and forgetting them does not change what the other side sees or will see. */
    lemma {:induction false} FlushedSees(s: seq<Change>, was: Records, n: seq<Change>, m: Machine, k: string)
      requires Once(n)
      requires forall c :: c in n <==> Due(was, c)
      ensures Last(s + n, m, k) == if Pending(was, m, k) && Passes(m, k) then Some(was[m][k]) else Last(s, m, k)
    {
      if Pending(was, m, k) && Passes(m, k) {
        assert Change(m, k, was[m][k]) in n;
        var j: nat :| j < |n| && n[j] == Change(m, k, was[m][k]);
        LastHit(s, n, j);
      } else {
        assert forall i | 0 <= i < |n| :: n[i] in n;
        LastMiss(s, n, m, k);
      }
    }

    /** The messages for the machines done so far, and those for one more. */
    lemma {:induction false} FlushStep(was: Records, left: Records, m: Machine, n: seq<Change>, more: seq<Change>)
      requires m in left && m in was && Once(n) && Once(more)
      requires forall c :: c in n <==> linkUp && Due(was, c) && c.machine !in left
      requires forall c :: c in more <==> linkUp && Reports(was[m], m, c)
      ensures Once(n + more)
      ensures forall c :: c in n + more <==> linkUp && Due(was, c) && c.machine !in left - {m}
    {
      OnceConcat(n, more, m);
    }

    /** The loop of sendThrottledUpdates: every kept value is sent once and nothing stays behind. */
    method FlushAll() returns (ghost n: seq<Change>)
      requires Valid()
      modifies `throttledItems, `sent
      ensures throttledItems == map[] && sent == old(sent) + n && Once(n)
      ensures forall c :: c in n <==> linkUp && Due(old(throttledItems), c)
    {
      n := [];
      ghost var was: Records := throttledItems;
      while throttledItems != map[]
        invariant forall m | m in throttledItems :: m in was && throttledItems[m] == was[m]
        invariant Valid() && sent == old(sent) + n && Once(n)
        invariant forall c :: c in n <==> linkUp && Due(was, c) && c.machine !in throttledItems
        decreases |throttledItems|
      {
        var m :| m in throttledItems;
        assert Throttled(m);      // the channel reports properties, so the assert of the code holds
        ghost var more := Flush(m, throttledItems[m]);
        FlushStep(was, throttledItems, m, n, more);
        n := n + more;
        throttledItems := throttledItems - {m};
      }
    }

    /**
     sendThrottledUpdates: on an active, connected channel every kept value is sent once, nothing stays
     behind, and the other side then has what a channel that does not throttle would have given it.
     */
    method SendThrottledUpdates() returns (ghost n: seq<Change>)
      requires Valid()
      modifies `throttledItems, `sent
      ensures Valid() && sent == old(sent) + n && Once(n)
      ensures !(active && connected) ==> n == [] && throttledItems == old(throttledItems)
      ensures active && connected ==>
                && throttledItems == map[]
                && forall c :: c in n <==> linkUp && Due(old(throttledItems), c)
      ensures linkUp && old(Synced()) ==> Synced()
      ensures linkUp && old(Synced()) && active && connected ==> forall m, k :: Last(sent, m, k) == Last(direct, m, k)
    {
      n := [];
      if !active || !connected {
        return;
      }
      ghost var was: Records := throttledItems;
      n := FlushAll();
      if linkUp && old(Synced()) {
        forall m, k
          ensures Last(sent, m, k) == Last(direct, m, k)
        {
          FlushedSees(old(sent), was, n, m, k);
          assert old(Seen(m, k)) == Last(direct, m, k);
        }
      }
    }

    /** sendPropertyChanges on this channel: the kept values of one machine are sent, unless it is disconnected. */
    method SendPropertyChanges(m: Machine, disconnected: bool) returns (ghost n: seq<Change>)
      requires Valid()
      modifies `throttledItems, `sent
      ensures Valid() && sent == old(sent) + n && Once(n)
      ensures linkUp && old(Synced()) ==> Synced()
      ensures throttledItems == if m in machines && throttles && reportsProperties && !disconnected
                                then old(throttledItems) - {m} else old(throttledItems)
      ensures forall c :: c in n <==> linkUp && Due(old(throttledItems), c) && c.machine == m && m !in throttledItems
    {
      n := [];
      if disconnected || !reportsProperties || m !in machines || !throttles || m !in throttledItems {
        return;
      }
      ghost var was: Records := map[m := throttledItems[m]];
      n := Flush(m, throttledItems[m]);
      throttledItems := throttledItems - {m};
      if linkUp && old(Synced()) {
        forall x, k
          ensures Seen(x, k) == Last(direct, x, k)
        {
          FlushedSees(old(sent), was, n, x, k);
          assert old(Seen(x, k)) == Last(direct, x, k);
        }
      }
    }
  }

  datatype Event = Changed(c: Change) | Ready | FlushOf(m: Machine)

  /** The changes that a channel reports when it reports every one at once. */
  function Direct(ch: Channel, machines: set<Machine>, events: seq<Event>): seq<Change> {
    if events == [] then []
    else
      var before, e := Direct(ch, machines, events[..|events| - 1]), events[|events| - 1];
      if e.Changed? && ch.reportsProperties && e.c.machine in machines && ch.Passes(e.c.machine, e.c.key)
      then before + [e.c] else before
  }

  /**
   A channel that throttles and one that does not, given the same changes, with flushes at any points, in a
   stretch in which both stay active: the second reports every change that is to be reported, in order, and
   once the first has flushed the other sides have the same values.
   */
  method SideBySide(a: Channel, b: Channel, events: seq<Event>)
    requires a != b && a.Valid() && b.Valid() && !b.throttles
    requires a.traits == b.traits && a.reportsProperties == b.reportsProperties
    requires a.reportsLocal == b.reportsLocal && a.isPublisher == b.isPublisher
    requires a.active && a.connected && a.linkUp && b.active && b.linkUp && a.machines == b.machines
    requires a.sent == a.direct == b.sent == b.direct == [] && a.throttledItems == map[]
    modifies a, b
    ensures b.sent == Direct(b, old(b.machines), events)
    ensures a.throttledItems == map[]
    ensures forall m, k :: Last(a.sent, m, k) == Last(Direct(b, old(b.machines), events), m, k)
  {
    for i := 0 to |events|
      invariant a.Valid() && a.Synced() && b.Valid()
      invariant a.active && a.connected && a.linkUp && b.active && b.linkUp && a.machines == b.machines == old(b.machines)
      invariant a.direct == b.direct == b.sent == Direct(b, b.machines, events[..i])
    {
      assert events[..i + 1][..i] == events[..i];
      match events[i]
      case Changed(c) =>
        a.SendPropertyChange(c.machine, c.key, c.value);
        b.SendPropertyChange(c.machine, c.key, c.value);
      case Ready =>
        ghost var _ := a.SendThrottledUpdates();
      case FlushOf(m) =>
        ghost var _ := a.SendPropertyChanges(m, false);
    }
    assert events[..|events|] == events;
    ghost var _ := a.SendThrottledUpdates();
  }
}
