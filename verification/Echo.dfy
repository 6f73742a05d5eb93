/**
 One property of a machine and of its shadow, at the two ends of a channel. A change at either end is
 reported to the other by a PROPERTY message; the authority that a message carries keeps the two ends
 from answering each other for ever.
 */
module Echo {
  import opened Options

  /** A number, or a string or symbol. */
  datatype Value = Integer(n: int) | Text(s: string, isSymbol: bool)

  /** A PROPERTY message; an authority of 0 is none. */
  datatype Message = Message(value: Value, authority: int)

  /** What IODCommandProperty::run makes of a value: text that is all a number becomes one. */
  function Normal(v: Value, number: string -> Option<int>): Value {
    if v.Text? && number(v.s).Some? then Integer(number(v.s).value) else v
  }

  /** The machine at one end, with its property and the messages on their way to the other end. */
  class End {
    const isShadow: bool
    const expectedAuthority: int     // of the machine: not 0 for a shadow
    const authority: int             // of the channel's definition
    const reported: bool             // the property is not local to its class, and is in the channel's interface
    var value: Value
    var outgoing: seq<Message>

    constructor (isShadow: bool, expectedAuthority: int, authority: int, reported: bool, value: Value)
      ensures this.isShadow == isShadow && this.expectedAuthority == expectedAuthority
      ensures this.authority == authority && this.reported == reported && this.value == value && outgoing == []
    {
      this.isShadow, this.expectedAuthority := isShadow, expectedAuthority;
      this.authority, this.reported, this.value, this.outgoing := authority, reported, value, [];
    }

    /** sendPropertyChangeMessage: a shadow does not report what its owner told it. */
    method SendPropertyChangeMessage(v: Value, auth: int)
      modifies `outgoing
      ensures outgoing == if !reported || (isShadow && auth != 0) then old(outgoing)
                          else old(outgoing) + [Message(v, if isShadow then 0 else authority)]
    {
      if !reported {
        return;
      }
      if isShadow {
        if auth != 0 {
          return;
        }
        outgoing := outgoing + [Message(v, auth)];
      } else {
        outgoing := outgoing + [Message(v, authority)];
      }
    }

    /** MachineInstance::setValue: a change without authority is passed on to the owner, otherwise reported if it is one. */
    method SetValue(v: Value, auth: int) returns (ok: bool)
      modifies `value, `outgoing
      ensures expectedAuthority != 0 && auth == 0 ==>
                && value == old(value) && ok == isShadow
                && outgoing == if isShadow && reported then old(outgoing) + [Message(v, 0)] else old(outgoing)
      ensures !(expectedAuthority != 0 && auth == 0) ==>
                && value == v && ok
                && outgoing == if !reported || old(value) == v || (isShadow && auth != 0) then old(outgoing)
                               else old(outgoing) + [Message(v, if isShadow then 0 else authority)]
    {
      if expectedAuthority != 0 && auth == 0 {
        if isShadow {
          SendPropertyChangeMessage(v, auth);
          return true;
        }
        return false;
      }
      var changed := value != v;
      value := v;
      if changed {
        SendPropertyChangeMessage(v, auth);
      }
      return true;
    }

    /** IODCommandProperty::run. */
    method Receive(m: Message, number: string -> Option<int>) returns (ok: bool)
      modifies `value, `outgoing
      ensures m.authority != 0 && !isShadow ==> !ok && value == old(value) && outgoing == old(outgoing)
      ensures isShadow && m.authority != 0 ==> ok && value == Normal(m.value, number) && outgoing == old(outgoing)
      ensures !isShadow && expectedAuthority == 0 && m.authority == 0 ==>
                && ok && value == Normal(m.value, number)
                && outgoing == if !reported || old(value) == value then old(outgoing) else old(outgoing) + [Message(value, authority)]
    {
      if m.authority != 0 && !isShadow {
        return false;
      }
      ok := SetValue(Normal(m.value, number), m.authority);
    }
  }

  datatype Event =
    | ChangeOwner(v: Value)       // the owner's program sets the property
    | ChangeShadow(v: Value)     // the other program sets the property of the shadow
    | DeliverToOwner
    | DeliverToShadow

  /** The most messages that an event can lead to. */
  function Cost(e: Event): nat {
    match e
    case ChangeOwner(_) => 1
    case ChangeShadow(_) => 2
    case _ => 0
  }

  // ----- the exchange as a state machine -----

  /** What the two definitions say: the owner's authority, which end reports the property, and what text is a number. */
  datatype Link = Link(authority: int, ownerReports: bool, shadowReports: bool, number: string -> Option<int>)

  /** The two values, the messages on their way, and how much has happened. */
  datatype State = State(
    owner: Value,
    shadow: Value,
    toShadow: seq<Message>,
    toOwner: seq<Message>,
    changes: nat,        // changes made to the machine itself
    requests: nat,       // changes made to the shadow
    messages: nat)       // messages sent by either end

  predicate CanHappen(s: State, e: Event) {
    match e
    case DeliverToOwner => s.toOwner != []
    case DeliverToShadow => s.toShadow != []
    case _ => true
  }

  /** The owner's value is set, and reported if that is a change. */
  function OwnerSet(l: Link, s: State, v: Value): State {
    if l.ownerReports && s.owner != v
    then s.(owner := v, toShadow := s.toShadow + [Message(v, l.authority)], messages := s.messages + 1)
    else s.(owner := v)
  }

  function Next(l: Link, s: State, e: Event): State
    requires CanHappen(s, e)
  {
    match e
    case ChangeOwner(v) => OwnerSet(l, s.(changes := s.changes + 1), v)
    case ChangeShadow(v) =>
      var asked := s.(requests := s.requests + 1);
      if l.shadowReports then asked.(toOwner := s.toOwner + [Message(v, 0)], messages := s.messages + 1) else asked
    case DeliverToOwner => OwnerSet(l, s.(toOwner := s.toOwner[1..]), Normal(s.toOwner[0].value, l.number))
    case DeliverToShadow => s.(toShadow := s.toShadow[1..], shadow := Normal(s.toShadow[0].value, l.number))
  }

  /** A run; an event that cannot happen is passed over. */
  function After(l: Link, s: State, events: seq<Event>): State
    decreases |events|
  {
    if events == [] then s
    else After(l, if CanHappen(s, events[0]) then Next(l, s, events[0]) else s, events[1..])
  }

  /** The owner's messages carry authority, the shadow's do not, and an end that does not report sends none. */
  predicate Authorised(l: Link, s: State) {
    && (forall m | m in s.toShadow :: m.authority != 0)
    && (forall m | m in s.toOwner :: m.authority == 0)
    && (!l.ownerReports ==> s.toShadow == []) && (!l.shadowReports ==> s.toOwner == [])
  }

  /** What the shadow has, or is about to be told last, is the owner's value, if the owner reports it. */
  predicate Converging(l: Link, s: State) {
    l.ownerReports ==>
      Normal(s.owner, l.number) ==
      if s.toShadow == [] then s.shadow else Normal(s.toShadow[|s.toShadow| - 1].value, l.number)
  }

  /** No storm: a request may still be answered once, and nothing else is. */
  predicate Bounded(s: State) {
    s.messages + |s.toOwner| <= s.changes + 2 * s.requests
  }

  predicate Good(l: Link, s: State) {
    l.authority != 0 && Authorised(l, s) && Converging(l, s) && Bounded(s)
  }

  /** The value that the owner has, or will have once it has seen every request. */
  function Due(l: Link, s: State): Value {
    if s.toOwner == [] then s.owner else Normal(s.toOwner[|s.toOwner| - 1].value, l.number)
  }

  function Distance(s: State): nat {
    |s.toShadow| + 2 * |s.toOwner|
  }

  predicate Quiet(s: State) {
    s.toShadow == [] && s.toOwner == []
  }

  lemma {:induction false} SetKeeps(l: Link, s: State, v: Value)
    requires l.authority != 0 && Authorised(l, s) && Converging(l, s)
    ensures var t := OwnerSet(l, s, v); Authorised(l, t) && Converging(l, t)
  {
  }

  /** Every event keeps the bound and the convergence, and a delivery brings the exchange nearer to its end. */
  lemma {:induction false} StepKeeps(l: Link, s: State, e: Event)
    requires Good(l, s) && CanHappen(s, e)
    ensures Good(l, Next(l, s, e))
    ensures var t := Next(l, s, e);
            && t.messages + |t.toOwner| <= s.messages + |s.toOwner| + Cost(e)
            && Due(l, t) == (if e.ChangeShadow? && l.shadowReports then Normal(e.v, l.number)
                             else if e.ChangeOwner? && s.toOwner == [] then e.v else Due(l, s))
            && (e.DeliverToOwner? || e.DeliverToShadow? ==> Distance(t) < Distance(s))
  {
    match e
    case ChangeOwner(v) => SetKeeps(l, s.(changes := s.changes + 1), v);
    case DeliverToOwner => SetKeeps(l, s.(toOwner := s.toOwner[1..]), Normal(s.toOwner[0].value, l.number));
    case _ =>
  }

  /** The changes made to the machine itself in a run. */
  function Changes(events: seq<Event>): nat {
    if events == [] then 0 else Changes(events[1..]) + if events[0].ChangeOwner? then 1 else 0
  }

  /** The changes made to the shadow. */
  function Requests(events: seq<Event>): nat {
    if events == [] then 0 else Requests(events[1..]) + if events[0].ChangeShadow? then 1 else 0
  }

  /** Any run, in any order: the messages never exceed one a change and two a request. */
  lemma {:induction false} NoStorm(l: Link, s: State, events: seq<Event>)
    requires Good(l, s)
    ensures var t := After(l, s, events);
            && Good(l, t) && t.changes == s.changes + Changes(events) && t.requests == s.requests + Requests(events)
            && t.messages <= s.messages + |s.toOwner| + Changes(events) + 2 * Requests(events)
    decreases |events|
  {
    if events != [] {
      if CanHappen(s, events[0]) {
        StepKeeps(l, s, events[0]);
        NoStorm(l, Next(l, s, events[0]), events[1..]);
      } else {
        NoStorm(l, s, events[1..]);
      }
    }
  }

  // ----- the two ends -----

  class Exchange {
    const owner: End
    const shadow: End
    const number: string -> Option<int>
    ghost var changes: nat
    ghost var requests: nat
    ghost var messages: nat

    constructor (owner: End, shadow: End, number: string -> Option<int>)
      ensures this.owner == owner && this.shadow == shadow && this.number == number
      ensures changes == 0 && requests == 0 && messages == 0
    {
      this.owner, this.shadow, this.number := owner, shadow, number;
      changes, requests, messages := 0, 0, 0;
    }

    function Plan(): Link {
      Link(owner.authority, owner.reported, shadow.reported, number)
    }

    ghost function Now(): State
      reads this, owner, shadow
    {
      State(owner.value, shadow.value, owner.outgoing, shadow.outgoing, changes, requests, messages)
    }

    ghost predicate Valid()
      reads this, owner, shadow
    {
      && owner != shadow
      && !owner.isShadow && owner.expectedAuthority == 0
      && shadow.isShadow && shadow.expectedAuthority != 0
      && Good(Plan(), Now())
    }

    /** One of the programs sets the property. */
    method Change(e: Event)
      requires Valid() && (e.ChangeOwner? || e.ChangeShadow?)
      modifies this, owner, shadow
      ensures Now() == Next(Plan(), old(Now()), e)
    {
      match e
      case ChangeOwner(v) =>
        var _ := owner.SetValue(v, 0);
        changes := changes + 1;
        messages := messages + |owner.outgoing| - old(|owner.outgoing|);
      case ChangeShadow(v) =>
        var _ := shadow.SetValue(v, 0);
        requests := requests + 1;
        messages := messages + |shadow.outgoing| - old(|shadow.outgoing|);
    }

    /** A message from the shadow's end is received. */
    method ServeOwner()
      requires Valid() && shadow.outgoing != []
      modifies this, owner, shadow
      ensures Now() == Next(Plan(), old(Now()), DeliverToOwner)
    {
      var m := shadow.outgoing[0];
      assert m.authority == 0;
      shadow.outgoing := shadow.outgoing[1..];
      var _ := owner.Receive(m, number);
      messages := messages + |owner.outgoing| - old(|owner.outgoing|);
    }

    /** A message from the owner's end is received. */
    method ServeShadow()
      requires Valid() && owner.outgoing != []
      modifies this, owner, shadow
      ensures Now() == Next(Plan(), old(Now()), DeliverToShadow)
    {
      var m := owner.outgoing[0];
      assert m.authority != 0;
      owner.outgoing := owner.outgoing[1..];
      var _ := shadow.Receive(m, number);
    }

    /** What the two programs do at an event. */
    method Step(e: Event)
      requires Valid() && CanHappen(Now(), e)
      modifies this, owner, shadow
      ensures Valid() && Now() == Next(Plan(), old(Now()), e)
    {
      StepKeeps(Plan(), Now(), e);
      match e
      case DeliverToOwner => ServeOwner();
      case DeliverToShadow => ServeShadow();
      case _ => Change(e);
    }

    predicate Ready(e: Event)
      reads owner, shadow
    {
      match e
      case DeliverToOwner => shadow.outgoing != []
      case DeliverToShadow => owner.outgoing != []
      case _ => true
    }

    /** Any run of the two programs is a run of the state machine, so the bound holds for it. */
    method Run(events: seq<Event>)
      requires Valid()
      modifies this, owner, shadow
      ensures Valid() && Now() == After(Plan(), old(Now()), events)
      ensures messages <= old(messages + |shadow.outgoing|) + Changes(events) + 2 * Requests(events)
    {
      NoStorm(Plan(), Now(), events);
      for i := 0 to |events|
        invariant Valid() && After(Plan(), Now(), events[i..]) == After(Plan(), old(Now()), events)
      {
        assert events[i..][0] == events[i] && events[i..][1..] == events[i + 1..];
        if Ready(events[i]) {
          Step(events[i]);
        }
      }
    }

    /**
     With no further changes the exchange stops, in whatever order the messages arrive, with the last request
     made and the shadow at the owner's value. `ownerFirst` says for each turn which end is served if both
     have mail.
     */
    method Settle(ownerFirst: nat -> bool) returns (turns: nat)
      requires Valid()
      modifies this, owner, shadow
      ensures Valid() && Quiet(Now()) && (owner.reported ==> shadow.value == Normal(owner.value, number))
      ensures owner.value == Due(Plan(), old(Now())) && turns <= Distance(old(Now()))
      ensures messages <= old(messages + |shadow.outgoing|)
    {
      turns := 0;
      while owner.outgoing != [] || shadow.outgoing != []
        invariant Valid() && Due(Plan(), Now()) == Due(Plan(), old(Now())) && turns + Distance(Now()) <= Distance(old(Now()))
        invariant messages + |shadow.outgoing| <= old(messages + |shadow.outgoing|)
        decreases Distance(Now())
      {
        var e := if shadow.outgoing != [] && (owner.outgoing == [] || ownerFirst(turns)) then DeliverToOwner else DeliverToShadow;
        StepKeeps(Plan(), Now(), e);
        Step(e);
        turns := turns + 1;
      }
    }

    /** A single change, at either end, reaches both and leads to at most two messages before all is quiet. */
    method SingleChange(e: Event, ownerFirst: nat -> bool)
      requires Valid() && Quiet(Now()) && (e.ChangeOwner? || e.ChangeShadow?)
      modifies this, owner, shadow
      ensures Valid() && Quiet(Now()) && (owner.reported ==> shadow.value == Normal(owner.value, number))
      ensures owner.value == if e.ChangeOwner? then e.v else if shadow.reported then Normal(e.v, number) else old(owner.value)
      ensures messages <= old(messages) + Cost(e) <= old(messages) + 2
    {
      StepKeeps(Plan(), Now(), e);
      Step(e);
      var _ := Settle(ownerFirst);
    }
  }
}
