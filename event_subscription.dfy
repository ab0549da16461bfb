/** The subscription record (EventSubscription.cs): an immutable binding of
    an event-type selector to a handler, with an id that alone decides
    equality and hashing, and a back-reference to the source that removes it.
    The record is generic in the type of that source, the unsubscribe-source
    interface; the bus instantiates it with itself. */
module Subscriptions {
  import opened Errors
  import opened EventKinds

  /** A handler delegate: opaque, compared only by equality. */
  datatype Handler = Handler(name: nat)

  /** A published event: its runtime kind and which instance it is. */
  datatype Event = Event(kind: Kind, instance: nat)

  /** One call of a handler with an event. */
  datatype Invocation = Invocation(handler: Handler, ev: Event)

  datatype EventSubscription<Source> =
    EventSubscription(id: nat, eventType: Kind, handler: Handler, source: Source)

  /** The operand of `Equals(object)`: null, a subscription, or a value of
      some other type (a string, say). */
  datatype Comparand<Source> =
    | Null
    | Subscription(sub: EventSubscription<Source>)
    | NotASubscription(tag: nat)

  /** The process-wide generator of subscription ids (`Guid.NewGuid`),
      modelled as a counter: every id it hands out is below `next`. */
  class GuidSource {
    var next: nat

    constructor ()
      ensures next == 0
    {
      next := 0;
    }

    method NewGuid() returns (id: nat)
      modifies this
      ensures id == old(next) && next == old(next) + 1
    {
      id := next;
      next := next + 1;
    }
  }

  /** The constructor. The arguments are checked in the order handler,
      event type, unsubscribe source, so the first missing one in that order
      is the one reported; only then is a fresh id drawn. */
  method NewSubscription<Source>(guids: GuidSource, eventType: Option<Kind>,
                                 handler: Option<Handler>, source: Option<Source>)
    returns (r: Result<EventSubscription<Source>>)
    modifies guids
    ensures r.Success? <==> handler.Some? && eventType.Some? && source.Some?
    ensures handler.None? ==> r == Failure(ArgumentNull("handler"))
    ensures handler.Some? && eventType.None? ==> r == Failure(ArgumentNull("eventType"))
    ensures handler.Some? && eventType.Some? && source.None? ==>
              r == Failure(ArgumentNull("unsubscribeSource"))
    ensures r.Failure? ==> guids.next == old(guids.next)
    ensures r.Success? ==>
              && r.value == EventSubscription(old(guids.next), eventType.value, handler.value, source.value)
              && guids.next == old(guids.next) + 1
  {
    if handler.None? {
      return Failure(ArgumentNull("handler"));
    }
    if eventType.None? {
      return Failure(ArgumentNull("eventType"));
    }
    if source.None? {
      return Failure(ArgumentNull("unsubscribeSource"));
    }
    var id := guids.NewGuid();
    r := Success(EventSubscription(id, eventType.value, handler.value, source.value));
  }

  /** Two subscriptions built one after the other from identical inputs are
      not equal, because each draws its own id. */
  method ConstructTwice<Source>(guids: GuidSource, eventType: Kind, handler: Handler, source: Source)
    returns (first: EventSubscription<Source>, second: EventSubscription<Source>)
    modifies guids
    ensures guids.next == old(guids.next) + 2
    ensures first.eventType == second.eventType && first.handler == second.handler
    ensures !Equals(first, Subscription(second))
  {
    var a := NewSubscription(guids, Some(eventType), Some(handler), Some(source));
    var b := NewSubscription(guids, Some(eventType), Some(handler), Some(source));
    first, second := a.value, b.value;
  }

  /** `IsSubscribedTo`: the event is an instance of the selected type.
      A null event is an instance of nothing. */
  predicate IsSubscribedTo<Source>(h: Hierarchy, s: EventSubscription<Source>, ev: Option<Event>)
    ensures IsSubscribedTo(h, s, ev) ==> ev.Some?
    ensures ev.Some? && ev.value.kind == s.eventType ==> IsSubscribedTo(h, s, ev)
  {
    ev.Some? && IsA(h, ev.value.kind, s.eventType)
  }

  /** A subscription for a base kind receives instances of the base kind and
      of every derived kind; a subscription for a proper derived kind does not
      receive a bare instance of the base kind. */
  lemma SubtypeMatching<Source>(h: Hierarchy, forBase: EventSubscription<Source>,
                                forDerived: EventSubscription<Source>,
                                baseEvent: Event, derivedEvent: Event)
    requires IsA(h, derivedEvent.kind, baseEvent.kind) && derivedEvent.kind != baseEvent.kind
    requires forBase.eventType == baseEvent.kind && forDerived.eventType == derivedEvent.kind
    ensures IsSubscribedTo(h, forBase, Some(baseEvent))
    ensures IsSubscribedTo(h, forBase, Some(derivedEvent))
    ensures !IsSubscribedTo(h, forDerived, Some(baseEvent))
  {
    if IsA(h, baseEvent.kind, derivedEvent.kind) {
      IsAAntisymmetric(h, baseEvent.kind, derivedEvent.kind);
    }
  }

  /** A subscription that receives events of some kind receives events of
      every kind derived from it. */
  lemma MatchInherited<Source>(h: Hierarchy, s: EventSubscription<Source>, e: Event, derived: Event)
    requires IsSubscribedTo(h, s, Some(e)) && IsA(h, derived.kind, e.kind)
    ensures IsSubscribedTo(h, s, Some(derived))
  {
    IsATransitive(h, derived.kind, e.kind, s.eventType);
  }

  /** `Handle`: a null event is rejected and nothing is invoked; otherwise
      the stored handler is invoked once, with that event. */
  function Handle<Source>(s: EventSubscription<Source>, ev: Option<Event>): (r: Result<Invocation>)
    ensures r.Failure? <==> ev.None?
    ensures r.Failure? ==> r.error == ArgumentNull("ev")
    ensures r.Success? ==> r.value.handler == s.handler && Some(r.value.ev) == ev
  {
    if ev.None? then Failure(ArgumentNull("ev")) else Success(Invocation(s.handler, ev.value))
  }

  /** `Equals(object)`: a subscription equals exactly the subscriptions with
      its id; never null, never a value of another type. */
  predicate Equals<Source>(s: EventSubscription<Source>, other: Comparand<Source>)
    ensures Equals(s, other) ==> other.Subscription?
    ensures other.Subscription? ==> (Equals(s, other) <==> other.sub.id == s.id)
  {
    match other
    case Subscription(o) => o.id == s.id
    case _ => false
  }

  /** Two subscriptions are equal exactly when their ids are, whatever their
      other fields; equality is an equivalence and only ever holds between
      subscriptions. */
  lemma EqualsById<Source>(a: EventSubscription<Source>, b: EventSubscription<Source>,
                           c: EventSubscription<Source>, tag: nat)
    ensures Equals(a, Subscription(b)) <==> a.id == b.id
    ensures Equals(a, Subscription(a))
    ensures Equals(a, Subscription(b)) <==> Equals(b, Subscription(a))
    ensures Equals(a, Subscription(b)) && Equals(b, Subscription(c)) ==> Equals(a, Subscription(c))
    ensures !Equals(a, Null) && !Equals(a, NotASubscription(tag))
  {
  }

  /** `Guid.GetHashCode`: the id folded into a signed 32-bit value. */
  function GuidHash(id: nat): (r: int)
    ensures -0x8000_0000 <= r < 0x8000_0000
  {
    var low := id % 0x1_0000_0000;
    if low < 0x8000_0000 then low else low - 0x1_0000_0000
  }

  /** `GetHashCode`: the hash of the id alone. */
  function HashCode<Source>(s: EventSubscription<Source>): (r: int)
    ensures -0x8000_0000 <= r < 0x8000_0000
  {
    GuidHash(s.id)
  }

  /** Equal subscriptions have equal hashes, whatever their other fields. */
  lemma EqualsAgreesWithHash<Source>(a: EventSubscription<Source>, b: EventSubscription<Source>)
    requires Equals(a, Subscription(b))
    ensures HashCode(a) == HashCode(b)
  {
  }
}
