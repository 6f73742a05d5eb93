/**
 The connection handshake of a client channel that is not a publisher. State changes are made at once or
 queued behind other actions, and a queued one runs whenever its turn comes, whatever has happened since.
 The question is which orderings of the states survive that.
 */
module Handshake {
  import opened Options

  datatype State = DISCONNECTED | CONNECTING | CONNECTED | DOWNLOADING | UPLOADING | ACTIVE

  /** An action that waits for its turn: a state change, or the upload of the machine states. */
  datatype Queued = SetTo(state: State) | Sync

  /** The subscription manager, as the environment makes it. */
  datatype Comms = Comms(manager: bool, ready: bool, setupDown: bool, subsDown: bool, waitingConnect: bool)

  datatype Event =
    | AddConnection
    | DropConnection
    | CommsChange(comms: Comms)
    | CheckStateChange          // a message from the partner, or an acknowledgement
    | CheckCommunications
    | RunQueued(i: nat)         // a queued state change gets its turn
    | SyncAcked(i: nat)         // the partner acknowledges an upload
    | SyncFailed(i: nat)

  function Remove(q: seq<Queued>, i: nat): seq<Queued>
    requires i < |q|
  {
    q[..i] + q[i + 1..]
  }

  /** The queued actions that will ask for ACTIVE, or may come to. */
  function Promises(q: seq<Queued>): nat {
    multiset(q)[Sync] + multiset(q)[SetTo(ACTIVE)]
  }

  function Disconnects(q: seq<Queued>): nat {
    multiset(q)[SetTo(DISCONNECTED)]
  }

  lemma {:induction false} Snoc(q: seq<Queued>, a: Queued)
    ensures Promises(q + [a]) == Promises(q) + if a == Sync || a == SetTo(ACTIVE) then 1 else 0
    ensures Disconnects(q + [a]) == Disconnects(q) + if a == SetTo(DISCONNECTED) then 1 else 0
  {
  }

  lemma {:induction false} Removing(q: seq<Queued>, i: nat)
    requires i < |q|
    ensures Promises(Remove(q, i)) == Promises(q) - if q[i] == Sync || q[i] == SetTo(ACTIVE) then 1 else 0
    ensures Disconnects(Remove(q, i)) == Disconnects(q) - if q[i] == SetTo(DISCONNECTED) then 1 else 0
  {
    assert q == q[..i] + [q[i]] + q[i + 1..];
  }

  /** What state changes work on: the state, the queue, the messages sent and the entries counted. */
  datatype Core = Core(state: State, queue: seq<Queued>, statusSent: nat, downloads: nat, uploads: nat, actives: nat)

  predicate Allowed(s: State, connections: int, comms: Comms) {
    s == DISCONNECTED || connections != 0 || (comms.manager && !comms.setupDown && !comms.subsDown)
  }

  /** A state change that is allowed. What it queues and sends does not depend on the state before. */
  function Entered(c: Core, s: State): Core {
    var n := if s != c.state then 1 else 0;
    Core(s,
         if s == CONNECTED then c.queue + [SetTo(DOWNLOADING)] else if s == UPLOADING then c.queue + [Sync] else c.queue,
         if s == DOWNLOADING then c.statusSent + 1 else c.statusSent,
         if s == DOWNLOADING then c.downloads + n else c.downloads,
         if s == UPLOADING then c.uploads + n else c.uploads,
         if s == ACTIVE then c.actives + n else c.actives)
  }

  function Try(c: Core, target: Option<State>, connections: int, comms: Comms): Core {
    if target.Some? && Allowed(target.value, connections, comms) then Entered(c, target.value) else c
  }

  /**
   Every upload follows a download of its own, and every download a status message. Entries into ACTIVE are
   covered by uploads and by stray changes, and each upload leaves at most one promise of such a change.
   */
  predicate Good(c: Core, strays: nat) {
    && c.downloads <= c.statusSent
    && c.uploads + (if c.state == DOWNLOADING then 1 else 0) <= c.downloads
    && c.actives + (if c.state == UPLOADING then 1 else 0) <= c.uploads + strays
    && strays + Promises(c.queue) <= c.uploads
    && SetTo(UPLOADING) !in c.queue
  }

  /** ACTIVE has been entered at most once for every upload, and the present upload still has its turn. */
  predicate InOrder(c: Core) {
    c.actives + (if c.state == UPLOADING then 1 else 0) <= c.uploads
  }

  /** A state change in its place keeps everything. */
  lemma {:induction false} EnteredKeeps(c: Core, s: State, strays: nat)
    requires Good(c, strays)
    requires (s == UPLOADING ==> c.state == DOWNLOADING) && (s == ACTIVE ==> c.state == UPLOADING || c.state == ACTIVE)
    ensures Good(Entered(c, s), strays) && (InOrder(c) ==> InOrder(Entered(c, s)))
    ensures Disconnects(Entered(c, s).queue) == Disconnects(c.queue)
  {
    Snoc(c.queue, SetTo(DOWNLOADING));
    Snoc(c.queue, Sync);
  }

  /** A stray change keeps the rest, and the order of ACTIVE and UPLOADING exactly if an upload is left over. */
  lemma {:induction false} StrayKeeps(c: Core, strays: nat)
    requires Good(c, strays) && strays + Promises(c.queue) < c.uploads && c.state != UPLOADING && c.state != ACTIVE
    ensures Good(Entered(c, ACTIVE), strays + 1)
    ensures InOrder(Entered(c, ACTIVE)) <==> c.actives < c.uploads
  {
  }

  lemma {:induction false} RemoveKeeps(c: Core, i: nat, strays: nat)
    requires Good(c, strays) && i < |c.queue|
    ensures var d := c.(queue := Remove(c.queue, i));
            && Good(d, strays)
            && (c.queue[i] == SetTo(ACTIVE) || c.queue[i] == Sync ==> strays + Promises(d.queue) < d.uploads)
  {
    Removing(c.queue, i);
  }

  /** Where the state of the communications leads. */
  function CommsTarget(s: State, comms: Comms): Option<State> {
    if !comms.manager || !comms.ready then None
    else if comms.setupDown then if s != DISCONNECTED then Some(DISCONNECTED) else None
    else if comms.subsDown then if comms.waitingConnect && s != CONNECTING then Some(CONNECTING) else None
    else match s
      case DISCONNECTED => Some(CONNECTED)
      case CONNECTED => Some(DOWNLOADING)
      case CONNECTING => Some(DOWNLOADING)
      case _ => None
  }

  /** Where a message from the partner leads. */
  function EventTarget(s: State): Option<State> {
    match s
    case DOWNLOADING => Some(UPLOADING)
    case UPLOADING => Some(ACTIVE)
    case _ => None
  }

  // ----- the channel as a state machine -----

  datatype World = World(core: Core, connections: int, comms: Comms, strays: nat)

  const INITIAL := World(Core(DISCONNECTED, [], 0, 0, 0, 0), 0, Comms(false, false, true, true, false), 0)

  /** A client has at most one connection, and only what is queued can run. */
  predicate CanHappen(w: World, e: Event) {
    match e
    case AddConnection => w.connections == 0
    case DropConnection => w.connections > 0
    case RunQueued(i) => i < |w.core.queue| && w.core.queue[i].SetTo?
    case SyncAcked(i) => i < |w.core.queue| && w.core.queue[i] == Sync
    case SyncFailed(i) => i < |w.core.queue| && w.core.queue[i] == Sync
    case _ => true
  }

  /** A queued change to ACTIVE that takes effect in a state that is no upload, and not ACTIVE either. */
  predicate IsStray(w: World, e: Event) {
    && e.RunQueued? && e.i < |w.core.queue| && w.core.queue[e.i] == SetTo(ACTIVE)
    && w.core.state != UPLOADING && w.core.state != ACTIVE && Allowed(ACTIVE, w.connections, w.comms)
  }

  function Next(w: World, e: Event): World
    requires CanHappen(w, e)
  {
    var c := w.core;
    match e
    case AddConnection => w.(connections := 1, core := c.(queue := c.queue + [SetTo(CONNECTED)]))
    case DropConnection =>
      var n := w.connections - 1;
      w.(connections := n, core := c.(queue := if n == 0 then c.queue + [SetTo(DISCONNECTED)] else c.queue))
    case CommsChange(comms) => w.(comms := comms)
    case CheckStateChange =>
      var d := if c.state == DISCONNECTED then Try(c, CommsTarget(DISCONNECTED, w.comms), w.connections, w.comms) else c;
      w.(core := Try(d, EventTarget(d.state), w.connections, w.comms))
    case CheckCommunications => w.(core := Try(c, CommsTarget(c.state, w.comms), w.connections, w.comms))
    case RunQueued(i) =>
      w.(core := Try(c.(queue := Remove(c.queue, i)), Some(c.queue[i].state), w.connections, w.comms),
         strays := if IsStray(w, e) then w.strays + 1 else w.strays)
    case SyncAcked(i) => w.(core := c.(queue := Remove(c.queue, i) + [SetTo(ACTIVE)]))
    case SyncFailed(i) => w.(core := c.(queue := Remove(c.queue, i)))
  }

  /** The state after a run; an event that cannot happen is passed over. */
  function After(w: World, events: seq<Event>): World
    decreases |events|
  {
    if events == [] then w
    else After(if CanHappen(w, events[0]) then Next(w, events[0]) else w, events[1..])
  }

  lemma {:induction false} AfterOne(w: World, e: Event, rest: seq<Event>)
    requires CanHappen(w, e)
    ensures After(w, [e] + rest) == After(Next(w, e), rest)
  {
    assert ([e] + rest)[1..] == rest;
  }

  class Channel {
    var state: State
    var connections: int
    var comms: Comms
    var queue: seq<Queued>
    var statusSent: nat          // "status" messages to the partner
    var downloads: nat           // entries into DOWNLOADING
    var uploads: nat             // entries into UPLOADING
    var actives: nat             // entries into ACTIVE
    var strays: nat              // entries into ACTIVE by a queued change, from a state other than UPLOADING

    constructor ()
      ensures Valid() && Ordered() && All() == INITIAL
    {
      state, connections, queue := DISCONNECTED, 0, [];
      comms := Comms(false, false, true, true, false);
      statusSent, downloads, uploads, actives, strays := 0, 0, 0, 0, 0;
    }

    function Now(): Core
      reads `state, `queue, `statusSent, `downloads, `uploads, `actives
    {
      Core(state, queue, statusSent, downloads, uploads, actives)
    }

    function All(): World
      reads this
    {
      World(Now(), connections, comms, strays)
    }

    ghost predicate Valid()
      reads this
    {
      0 <= connections <= 1 && Good(Now(), strays)
    }

    predicate Ordered()
      reads `state, `queue, `statusSent, `downloads, `uploads, `actives
    {
      InOrder(Now())
    }

    /** setState refuses when there is neither a connection nor a working subscription. */
    predicate Accepts(s: State)
      reads `connections, `comms
    {
      Allowed(s, connections, comms)
    }

    /** Channel::setState, for a client. The side effects happen also when the state stays the same. */
    method SetState(s: State) returns (ok: bool)
      modifies `state, `queue, `statusSent, `downloads, `uploads, `actives
      ensures ok == Accepts(s)
      ensures Now() == if ok then Entered(old(Now()), s) else old(Now())
    {
      if s != DISCONNECTED && connections == 0 {
        if !comms.manager || comms.setupDown || comms.subsDown {
          return false;
        }
      }
      if s != state {
        state := s;
        match s {
          case DOWNLOADING => downloads := downloads + 1;
          case UPLOADING => uploads := uploads + 1;
          case ACTIVE => actives := actives + 1;
          case _ =>
        }
      }
      match s {
        case CONNECTED => queue := queue + [SetTo(DOWNLOADING)];
        case UPLOADING => queue := queue + [Sync];
        case DOWNLOADING => statusSent := statusSent + 1;
        case _ =>
      }
      return true;
    }

    /** A state change in its place. */
    method Enter(s: State)
      requires Valid()
      requires (s == UPLOADING ==> state == DOWNLOADING) && (s == ACTIVE ==> state == UPLOADING || state == ACTIVE)
      modifies `state, `queue, `statusSent, `downloads, `uploads, `actives
      ensures Valid() && (old(Ordered()) ==> Ordered()) && Disconnects(queue) == old(Disconnects(queue))
      ensures Now() == Try(old(Now()), Some(s), connections, comms)
    {
      EnteredKeeps(Now(), s, strays);
      var _ := SetState(s);
    }

    /** A change to ACTIVE out of its place. */
    method EnterStray()
      requires Valid() && strays + Promises(queue) < uploads && state != UPLOADING && state != ACTIVE
      modifies `state, `queue, `statusSent, `downloads, `uploads, `actives, `strays
      ensures Valid() && queue == old(queue) && strays == old(strays) + if Accepts(ACTIVE) then 1 else 0
      ensures old(Ordered()) ==> (Ordered() <==> !Accepts(ACTIVE) || old(actives < uploads))
      ensures Now() == Try(old(Now()), Some(ACTIVE), connections, comms)
    {
      StrayKeeps(Now(), strays);
      var ok := SetState(ACTIVE);
      if ok {
        strays := strays + 1;
      }
    }

    /** An action leaves the queue. */
    method Dequeue(i: nat)
      requires Valid() && i < |queue|
      modifies `queue
      ensures Valid() && (old(Ordered()) ==> Ordered()) && Now() == old(Now()).(queue := Remove(old(queue), i))
      ensures Disconnects(queue) == old(Disconnects(queue)) - if old(queue)[i] == SetTo(DISCONNECTED) then 1 else 0
      ensures old(queue)[i] == SetTo(ACTIVE) || old(queue)[i] == Sync ==> strays + Promises(queue) < uploads
    {
      Removing(queue, i);
      RemoveKeeps(Now(), i, strays);
      queue := Remove(queue, i);
    }

    /** addConnection: a client has one connection, and queues CONNECTED for it. */
    method Connect()
      requires Valid() && connections == 0
      modifies `connections, `queue
      ensures Valid() && connections == 1 && queue == old(queue) + [SetTo(CONNECTED)]
      ensures Disconnects(queue) == old(Disconnects(queue))
    {
      Snoc(queue, SetTo(CONNECTED));
      connections := connections + 1;
      queue := queue + [SetTo(CONNECTED)];
    }

    /** dropConnection. */
    method Disconnect()
      requires Valid() && connections > 0
      modifies `connections, `queue
      ensures Valid() && connections == old(connections) - 1
      ensures queue == if connections == 0 then old(queue) + [SetTo(DISCONNECTED)] else old(queue)
      ensures Disconnects(queue) == old(Disconnects(queue)) + if connections == 0 then 1 else 0
    {
      Snoc(queue, SetTo(DISCONNECTED));
      connections := connections - 1;
      if connections == 0 {
        queue := queue + [SetTo(DISCONNECTED)];
      }
    }

    method ChangeComms(c: Comms)
      requires Valid()
      modifies `comms
      ensures Valid() && comms == c
    {
      comms := c;
    }

    /** checkCommunications. */
    method CheckComms()
      requires Valid()
      modifies `state, `queue, `statusSent, `downloads, `uploads, `actives
      ensures Valid() && (old(Ordered()) ==> Ordered()) && Disconnects(queue) == old(Disconnects(queue))
      ensures Now() == Try(old(Now()), CommsTarget(old(state), comms), connections, comms)
    {
      var target := None;
      if comms.manager && comms.ready {
        if comms.setupDown || comms.subsDown {
          if comms.setupDown && state != DISCONNECTED {
            target := Some(DISCONNECTED);
          } else if !comms.setupDown && comms.waitingConnect && state != CONNECTING {
            target := Some(CONNECTING);
          }
        } else if state == DISCONNECTED {
          target := Some(CONNECTED);
        } else if state == CONNECTED || state == CONNECTING {
          target := Some(DOWNLOADING);
        }
      }
      if target.Some? {
        Enter(target.value);
      }
    }

    /** checkStateChange, for a client. */
    method CheckEvent()
      requires Valid()
      modifies `state, `queue, `statusSent, `downloads, `uploads, `actives
      ensures Valid() && (old(Ordered()) ==> Ordered()) && Disconnects(queue) == old(Disconnects(queue))
      ensures var c := if old(state) == DISCONNECTED
                       then Try(old(Now()), CommsTarget(DISCONNECTED, comms), connections, comms) else old(Now());
              Now() == Try(c, EventTarget(c.state), connections, comms)
    {
      if state == DISCONNECTED {
        CheckComms();
      }
      Advance();
    }

    /** The transition that a message from the partner makes. */
    method Advance()
      requires Valid()
      modifies `state, `queue, `statusSent, `downloads, `uploads, `actives
      ensures Valid() && (old(Ordered()) ==> Ordered()) && Disconnects(queue) == old(Disconnects(queue))
      ensures Now() == Try(old(Now()), EventTarget(old(state)), connections, comms)
    {
      if state == DOWNLOADING {
        Enter(UPLOADING);
      } else if state == UPLOADING {
        Enter(ACTIVE);
      }
    }

    /** A queued state change gets its turn. */
    method RunSetTo(i: nat)
      requires Valid() && i < |queue| && queue[i].SetTo?
      modifies `state, `queue, `statusSent, `downloads, `uploads, `actives, `strays
      ensures Valid()
      ensures Disconnects(queue) <= old(Disconnects(queue))
      ensures old(Ordered()) ==> (Ordered() <==> !old(IsStray(All(), RunQueued(i))) || old(actives < uploads))
      ensures strays == old(strays) + if old(IsStray(All(), RunQueued(i))) then 1 else 0
      ensures Now() == Try(old(Now()).(queue := Remove(old(queue), i)), Some(old(queue)[i].state), connections, comms)
    {
      var s := queue[i].state;
      assert s != UPLOADING;
      Dequeue(i);
      if s == ACTIVE && state != UPLOADING && state != ACTIVE {
        EnterStray();
      } else {
        Enter(s);
      }
    }

    /** SyncRemoteStatesAction is done: acknowledged, it queues the change to ACTIVE; otherwise it just ends. */
    method EndSync(i: nat, acked: bool)
      requires Valid() && i < |queue| && queue[i] == Sync
      modifies `queue
      ensures Valid() && Disconnects(queue) == old(Disconnects(queue))
      ensures queue == if acked then Remove(old(queue), i) + [SetTo(ACTIVE)] else Remove(old(queue), i)
    {
      Dequeue(i);
      if acked {
        Snoc(queue, SetTo(ACTIVE));
        queue := queue + [SetTo(ACTIVE)];
      }
    }

    /**
     Every step keeps the order of uploads, downloads and status messages. It keeps the order of ACTIVE
     and UPLOADING too, unless it is a stray change that finds every upload used up: then, and only then,
     it breaks it. A change to DISCONNECTED is queued exactly when the last connection goes.
     */
    method Step(e: Event)
      requires Valid() && CanHappen(All(), e)
      modifies this
      ensures Valid() && All() == Next(old(All()), e)
      ensures old(Ordered()) ==> (Ordered() <==> !old(IsStray(All(), e)) || old(actives < uploads))
      ensures Disconnects(queue) > old(Disconnects(queue)) <==> old(connections) == 1 && connections == 0
    {
      match e
      case AddConnection =>
        Connect();
      case DropConnection =>
        Disconnect();
      case CommsChange(c) =>
        ChangeComms(c);
      case CheckStateChange =>
        CheckEvent();
      case CheckCommunications =>
        CheckComms();
      case RunQueued(i) =>
        RunSetTo(i);
      case SyncAcked(i) =>
        EndSync(i, true);
      case SyncFailed(i) =>
        EndSync(i, false);
    }

    /**
     Any run. UPLOADING never outnumbers DOWNLOADING, nor DOWNLOADING the status messages; ACTIVE outnumbers
     UPLOADING by no more than the stray changes, which are no more than the uploads, and not at all in a
     run without stray changes.
     */
    method Run(events: seq<Event>) returns (clean: bool)
      requires Valid() && Ordered()
      modifies this
      ensures Valid() && All() == After(old(All()), events)
      ensures uploads <= downloads <= statusSent && actives <= uploads + strays && strays <= uploads
      ensures old(strays) <= strays && (clean <==> strays == old(strays))
      ensures clean ==> actives <= uploads
    {
      clean := true;
      for i := 0 to |events|
        invariant Valid() && After(All(), events[i..]) == After(old(All()), events)
        invariant old(strays) <= strays && (clean <==> strays == old(strays)) && (clean ==> Ordered())
      {
        assert events[i..][0] == events[i] && events[i..][1..] == events[i + 1..];
        if CanHappen(All(), events[i]) {
          clean := clean && !IsStray(All(), events[i]);
          Step(events[i]);
        }
      }
    }
  }

  // ----- the subscription goes and comes back -----

  /** The subscription manager is there and both its connections are up. */
  predicate IsUp(c: Comms) {
    c.manager && c.ready && !c.setupDown && !c.subsDown
  }

  /** The checks of the connection, then the partner's messages, of a handshake over a subscription. */
  const RECONNECT: seq<Event> := [CheckCommunications, CheckCommunications, CheckStateChange, CheckStateChange]

  /**
   From whatever has gone before, a channel that is not connected and finds the subscription up gets to ACTIVE in
   four events, by one status message, one download and one upload, with no connection of its own needed.
   */
  lemma {:induction false} Reconnects(w: World)
    requires IsUp(w.comms) && (w.core.state == DISCONNECTED || w.core.state == CONNECTING || w.core.state == CONNECTED)
    ensures var v, c := After(w, RECONNECT), w.core;
            && v.connections == w.connections && v.comms == w.comms && v.strays == w.strays
            && v.core == Core(ACTIVE,
                              if c.state == DISCONNECTED then c.queue + [SetTo(DOWNLOADING), Sync] else c.queue + [Sync],
                              c.statusSent + 1, c.downloads + 1, c.uploads + 1, c.actives + 1)
  {
    var c := w.core;
    var w1 := Next(w, CheckCommunications);
    var w2 := Next(w1, CheckCommunications);
    var q := if c.state == DISCONNECTED then c.queue + [SetTo(DOWNLOADING)] else c.queue;
    assert w2 == w.(core := Core(DOWNLOADING, q, c.statusSent + 1, c.downloads + 1, c.uploads, c.actives));
    var w3 := Next(w2, CheckStateChange);
    assert w3.core == Core(UPLOADING, q + [Sync], c.statusSent + 1, c.downloads + 1, c.uploads + 1, c.actives);
    var w4 := Next(w3, CheckStateChange);
    assert c.queue + [SetTo(DOWNLOADING)] + [Sync] == c.queue + [SetTo(DOWNLOADING), Sync];
    FourSteps(w, RECONNECT, w1, w2, w3, w4);
  }

  /** A message from the partner does for a disconnected channel what a check of the connection would do. */
  lemma {:induction false} MessageConnects(w: World)
    requires IsUp(w.comms) && w.core.state == DISCONNECTED
    ensures After(w, [CheckStateChange]) ==
            w.(core := w.core.(state := CONNECTED, queue := w.core.queue + [SetTo(DOWNLOADING)]))
  {
    AfterOne(w, CheckStateChange, []);
    assert [CheckStateChange] + [] == [CheckStateChange];
  }

  /** A check that finds the setup connection down leaves the channel disconnected; the queue stays as it is. */
  lemma {:induction false} LosesSubscription(w: World)
    requires w.comms.manager && w.comms.ready && w.comms.setupDown
    ensures After(w, [CheckCommunications]) == w.(core := w.core.(state := DISCONNECTED))
  {
    AfterOne(w, CheckCommunications, []);
    assert [CheckCommunications] + [] == [CheckCommunications];
  }

  /** A check that finds only the subscriber down waits for it, once the setup is waiting to connect. */
  lemma {:induction false} WaitsForSubscriber(w: World)
    requires w.comms.manager && w.comms.ready && !w.comms.setupDown && w.comms.subsDown
    ensures After(w, [CheckCommunications]) ==
            if w.comms.waitingConnect && w.connections != 0 then w.(core := w.core.(state := CONNECTING)) else w
  {
    AfterOne(w, CheckCommunications, []);
    assert [CheckCommunications] + [] == [CheckCommunications];
  }

  // ----- a run that breaks the order -----

  /** The subscription, lost. */
  const LOST := Comms(true, true, true, true, false)

  /** The handshake as it should go, up to the upload. */
  const USUAL: seq<Event> := [AddConnection, RunQueued(0), RunQueued(0), CheckStateChange, CheckStateChange]

  /** The subscription is lost, then the acknowledgement of the upload arrives and the change to ACTIVE that it queues runs. */
  const LATE_ACK: seq<Event> := [CommsChange(LOST), CheckCommunications, SyncAcked(0), RunQueued(0)]

  lemma {:induction false} UsualConnects()
    ensures CanHappen(INITIAL, USUAL[0]) && CanHappen(Next(INITIAL, USUAL[0]), USUAL[1])
    ensures Next(Next(INITIAL, USUAL[0]), USUAL[1]) ==
            World(Core(CONNECTED, [SetTo(DOWNLOADING)], 0, 0, 0, 0), 1, INITIAL.comms, 0)
  {
    var w1 := Next(INITIAL, AddConnection);
    assert w1 == World(Core(DISCONNECTED, [SetTo(CONNECTED)], 0, 0, 0, 0), 1, INITIAL.comms, 0);
    assert Remove(w1.core.queue, 0) == [];
  }

  lemma {:induction false} UsualRun()
    ensures After(INITIAL, USUAL) == World(Core(ACTIVE, [Sync], 1, 1, 1, 1), 1, INITIAL.comms, 0)
  {
    UsualConnects();
    var w1 := Next(INITIAL, USUAL[0]);
    var w2 := Next(w1, USUAL[1]);
    var w3 := Next(w2, USUAL[2]);
    assert Remove(w2.core.queue, 0) == [];
    assert w3 == World(Core(DOWNLOADING, [], 1, 1, 0, 0), 1, INITIAL.comms, 0);
    var w4 := Next(w3, USUAL[3]);
    assert w4 == World(Core(UPLOADING, [Sync], 1, 1, 1, 0), 1, INITIAL.comms, 0);
    FiveSteps(INITIAL, USUAL, w1, w2, w3, w4, Next(w4, USUAL[4]));
  }

  lemma {:induction false} FiveSteps(w: World, es: seq<Event>, w1: World, w2: World, w3: World, w4: World, w5: World)
    requires |es| == 5
    requires CanHappen(w, es[0]) && w1 == Next(w, es[0]) && CanHappen(w1, es[1]) && w2 == Next(w1, es[1])
    requires CanHappen(w2, es[2]) && w3 == Next(w2, es[2]) && CanHappen(w3, es[3]) && w4 == Next(w3, es[3])
    requires CanHappen(w4, es[4]) && w5 == Next(w4, es[4])
    ensures After(w, es) == w5
  {
    AfterOne(w4, es[4], []);
    AfterOne(w3, es[3], [es[4]] + []);
    AfterOne(w2, es[2], [es[3]] + ([es[4]] + []));
    AfterOne(w1, es[1], [es[2]] + ([es[3]] + ([es[4]] + [])));
    AfterOne(w, es[0], [es[1]] + ([es[2]] + ([es[3]] + ([es[4]] + []))));
    assert es == [es[0]] + ([es[1]] + ([es[2]] + ([es[3]] + ([es[4]] + []))));
  }

  /**
   ACTIVE can outnumber UPLOADING: the change to ACTIVE that a late acknowledgement queues is made in
   DISCONNECTED. Every queued action in this run is the first of the queue.
   */
  lemma {:induction false} StrayRun()
    ensures var w := After(INITIAL, USUAL + LATE_ACK); w.core.uploads == 1 && w.core.actives == 2 && w.strays == 1
  {
    UsualRun();
    LateAck();
    AfterAppend(INITIAL, USUAL, LATE_ACK);
  }

  lemma {:induction false} LateAck()
    ensures After(World(Core(ACTIVE, [Sync], 1, 1, 1, 1), 1, INITIAL.comms, 0), LATE_ACK) ==
            World(Core(ACTIVE, [], 1, 1, 1, 2), 1, LOST, 1)
  {
    var w0 := World(Core(ACTIVE, [Sync], 1, 1, 1, 1), 1, INITIAL.comms, 0);
    var w1 := Next(w0, CommsChange(LOST));
    var w2 := Next(w1, CheckCommunications);
    assert w2 == World(Core(DISCONNECTED, [Sync], 1, 1, 1, 1), 1, LOST, 0);
    var w3 := Next(w2, SyncAcked(0));
    assert Remove(w2.core.queue, 0) == [] && w3 == World(Core(DISCONNECTED, [SetTo(ACTIVE)], 1, 1, 1, 1), 1, LOST, 0);
    var w4 := Next(w3, RunQueued(0));
    assert Remove(w3.core.queue, 0) == [];
    FourSteps(w0, LATE_ACK, w1, w2, w3, w4);
  }

  lemma {:induction false} FourSteps(w: World, es: seq<Event>, w1: World, w2: World, w3: World, w4: World)
    requires |es| == 4
    requires CanHappen(w, es[0]) && w1 == Next(w, es[0]) && CanHappen(w1, es[1]) && w2 == Next(w1, es[1])
    requires CanHappen(w2, es[2]) && w3 == Next(w2, es[2]) && CanHappen(w3, es[3]) && w4 == Next(w3, es[3])
    ensures After(w, es) == w4
  {
    AfterOne(w3, es[3], []);
    AfterOne(w2, es[2], [es[3]] + []);
    AfterOne(w1, es[1], [es[2]] + ([es[3]] + []));
    AfterOne(w, es[0], [es[1]] + ([es[2]] + ([es[3]] + [])));
    assert es == [es[0]] + ([es[1]] + ([es[2]] + ([es[3]] + [])));
  }

  lemma {:induction false} AfterAppend(w: World, a: seq<Event>, b: seq<Event>)
    ensures After(w, a + b) == After(After(w, a), b)
    decreases |a|
  {
    if a == [] {
      assert a + b == b;
    } else {
      AfterAppend(if CanHappen(w, a[0]) then Next(w, a[0]) else w, a[1..], b);
      assert (a + b)[0] == a[0] && (a + b)[1..] == a[1..] + b;
    }
  }
}
