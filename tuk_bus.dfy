/** The bus (TukBus.cs): a registry of subscriptions shared by every bus
    instance, and a per-instance disposed flag that gates every operation.

    The registry is a static field of the bus class, so every bus of the
    process reads and writes the same bag. It is modelled as one `Registry`
    object that every `TukBus` refers to; the id generator behind
    `Guid.NewGuid` is process-wide in the same way. */
module Bus {
  import opened Errors
  import opened EventKinds
  import opened Subscriptions

  /** A subscription whose unsubscribe source is a bus. */
  type Sub = EventSubscription<TukBus>

  const DisposedMessage := "The bus has already been disposed."
  /** What `SingleOrDefault` throws when several elements match. */
  const MoreThanOneMatch := "Sequence contains more than one matching element"

  // ---------------------------------------------------------------------
  // The bag and its operations

  /** `s` without its `i`-th element. */
  function RemoveAt<T>(s: seq<T>, i: nat): (r: seq<T>)
    requires i < |s|
    ensures |r| == |s| - 1
    ensures forall k :: 0 <= k < |r| ==> r[k] == if k < i then s[k] else s[k + 1]
    ensures multiset(r) == multiset(s) - multiset{s[i]}
  {
    assert s == s[..i] + [s[i]] + s[i + 1..];
    s[..i] + s[i + 1..]
  }

  /** `after` is what `TryTake` may leave of `before`: unchanged when empty,
      otherwise `before` less one element, which one being unspecified. */
  predicate TryTaken<T(==)>(before: seq<T>, after: seq<T>)
  {
    if before == [] then after == []
    else exists i :: 0 <= i < |before| && after == RemoveAt(before, i)
  }

  /** A `TryTake` shrinks a non-empty bag by exactly one of its elements and
      leaves an empty one empty. */
  lemma TryTakenShrinksByOne<T>(before: seq<T>, after: seq<T>)
    requires TryTaken(before, after)
    ensures |after| == if before == [] then 0 else |before| - 1
    ensures before != [] ==> exists x :: x in before && multiset(after) == multiset(before) - multiset{x}
  {
    if before != [] {
      var i :| 0 <= i < |before| && after == RemoveAt(before, i);
      assert before[i] in before;
    }
  }

  /** Removal is not targeted: whichever subscription is named, unsubscribing
      from a registry holding `x` then `y` may drop `y` and keep `x`, and may
      as well drop `x` and keep `y`. */
  lemma TryTakeIsNotTargeted<T>(x: T, y: T)
    ensures TryTaken([x, y], [x]) && TryTaken([x, y], [y])
  {
    assert RemoveAt([x, y], 1) == [x];
    assert RemoveAt([x, y], 0) == [y];
  }

  predicate HasHandler(m: seq<Sub>, hd: Handler)
  {
    exists i :: 0 <= i < |m| && m[i].handler == hd
  }

  /** How many members of `m` carry the handler `hd`. */
  function CountHandler(m: seq<Sub>, hd: Handler): (n: nat)
    ensures n <= |m|
    ensures n == 0 <==> !HasHandler(m, hd)
  {
    if m == [] then 0
    else (if m[0].handler == hd then 1 else 0) + CountHandler(m[1..], hd)
  }

  /** No two members carry equal handlers. */
  predicate DistinctHandlers(m: seq<Sub>)
  {
    forall i, j :: 0 <= i < j < |m| ==> m[i].handler != m[j].handler
  }

  /** No two members carry equal ids. */
  predicate DistinctIds(m: seq<Sub>)
  {
    forall i, j :: 0 <= i < j < |m| ==> m[i].id != m[j].id
  }

  /** With distinct handlers a handler is carried at most once. */
  lemma {:induction false} DistinctHandlersCountAtMostOne(m: seq<Sub>, hd: Handler)
    requires DistinctHandlers(m)
    ensures CountHandler(m, hd) <= 1
  {
    if m != [] {
      assert DistinctHandlers(m[1..]) by {
        forall i, j | 0 <= i < j < |m[1..]| ensures m[1..][i].handler != m[1..][j].handler {
          assert m[1..][i] == m[i + 1] && m[1..][j] == m[j + 1];
        }
      }
      DistinctHandlersCountAtMostOne(m[1..], hd);
      if m[0].handler == hd {
        forall s | s in m[1..] ensures s.handler != hd {
          var j :| 0 <= j < |m[1..]| && m[1..][j] == s;
          assert m[j + 1] == s;
        }
      }
    }
  }

  /** `SingleOrDefault(h => h.Handler.Equals(handler))`: the one member with
      that handler, none if there is none, and an invalid-operation error if
      several members carry it. */
  function SingleOrDefault(m: seq<Sub>, hd: Handler): (r: Result<Option<Sub>>)
    ensures r.Failure? <==> CountHandler(m, hd) > 1
    ensures r.Failure? ==> r.error == InvalidOperation(MoreThanOneMatch)
    ensures r.Success? && r.value.None? <==> !HasHandler(m, hd)
    ensures r.Success? && r.value.Some? ==> r.value.value in m && r.value.value.handler == hd
  {
    if m == [] then Success(None)
    else
      match SingleOrDefault(m[1..], hd)
      case Failure(e) => Failure(e)
      case Success(rest) =>
        if m[0].handler != hd then Success(rest)
        else if rest.Some? then Failure(InvalidOperation(MoreThanOneMatch))
        else Success(Some(m[0]))
  }

  /** `GetHandlers`: the members whose selector the event is an instance of,
      in registry order. A null event is received by nobody. */
  function GetHandlers(h: Hierarchy, m: seq<Sub>, ev: Option<Event>): (r: seq<Sub>)
    ensures forall i :: 0 <= i < |r| ==> r[i] in m && IsSubscribedTo(h, r[i], ev)
    ensures forall i :: 0 <= i < |m| && IsSubscribedTo(h, m[i], ev) ==> m[i] in r
    ensures multiset(r) <= multiset(m)
    ensures ev.None? ==> r == []
  {
    if m == [] then []
    else
      var rest := GetHandlers(h, m[1..], ev);
      var head := if IsSubscribedTo(h, m[0], ev) then [m[0]] else [];
      assert m == [m[0]] + m[1..];
      assert forall i :: 1 <= i < |m| ==> m[i] == m[1..][i - 1];
      head + rest
  }

  /** The calls a dispatch makes: the handler of each subscription, in
      turn, with the event. */
  function Invocations(subs: seq<Sub>, e: Event): (r: seq<Invocation>)
    ensures |r| == |subs|
    ensures forall i :: 0 <= i < |subs| ==> r[i] == Invocation(subs[i].handler, e)
  {
    if subs == [] then [] else [Invocation(subs[0].handler, e)] + Invocations(subs[1..], e)
  }

  /** Counting a handler in two runs of subscriptions. */
  lemma {:induction false} CountHandlerAppend(a: seq<Sub>, b: seq<Sub>, hd: Handler)
    ensures CountHandler(a + b, hd) == CountHandler(a, hd) + CountHandler(b, hd)
  {
    if a != [] {
      assert (a + b)[1..] == a[1..] + b;
      CountHandlerAppend(a[1..], b, hd);
    } else {
      assert a + b == b;
    }
  }

  /** A dispatch calls a handler as many times as the dispatched
      subscriptions carry it. */
  lemma {:induction false} InvocationsCountHandler(subs: seq<Sub>, e: Event, hd: Handler)
    ensures multiset(Invocations(subs, e))[Invocation(hd, e)] == CountHandler(subs, hd)
  {
    if subs != [] {
      InvocationsCountHandler(subs[1..], e, hd);
      assert Invocations(subs, e) == [Invocation(subs[0].handler, e)] + Invocations(subs[1..], e);
    }
  }

  /** Some member with handler `hd` receives `e`. */
  predicate HasMatchingHandler(h: Hierarchy, m: seq<Sub>, e: Event, hd: Handler)
  {
    exists i :: 0 <= i < |m| && m[i].handler == hd && IsSubscribedTo(h, m[i], Some(e))
  }

  /** With distinct handlers, the subscriptions an event reaches carry a
      handler once if some member with it receives the event, else never. */
  lemma {:induction false} MatchedHandlerCount(h: Hierarchy, m: seq<Sub>, e: Event, hd: Handler)
    requires DistinctHandlers(m)
    ensures CountHandler(GetHandlers(h, m, Some(e)), hd) == if HasMatchingHandler(h, m, e, hd) then 1 else 0
  {
    if m != [] {
      var tail := m[1..];
      var matched := IsSubscribedTo(h, m[0], Some(e));
      assert DistinctHandlers(tail) by {
        forall i, j | 0 <= i < j < |tail| ensures tail[i].handler != tail[j].handler {
          assert tail[i] == m[i + 1] && tail[j] == m[j + 1];
        }
      }
      MatchedHandlerCount(h, tail, e, hd);
      var rest := GetHandlers(h, tail, Some(e));
      var head := if matched then [m[0]] else [];
      assert GetHandlers(h, m, Some(e)) == head + rest;
      CountHandlerAppend(head, rest, hd);
      assert HasMatchingHandler(h, m, e, hd) <==>
             (matched && m[0].handler == hd) || HasMatchingHandler(h, tail, e, hd) by {
        if HasMatchingHandler(h, m, e, hd) {
          var i :| 0 <= i < |m| && m[i].handler == hd && IsSubscribedTo(h, m[i], Some(e));
          if i > 0 {
            assert tail[i - 1] == m[i];
          }
        }
        if HasMatchingHandler(h, tail, e, hd) {
          var j :| 0 <= j < |tail| && tail[j].handler == hd && IsSubscribedTo(h, tail[j], Some(e));
          assert m[j + 1] == tail[j];
        }
      }
      if m[0].handler == hd {
        // No other member carries hd, so only the head can contribute.
        assert !HasMatchingHandler(h, tail, e, hd) by {
          forall j | 0 <= j < |tail| ensures tail[j].handler != hd {
            assert tail[j] == m[j + 1];
          }
        }
      }
    }
  }

  /** Publishing an event to a registry whose handlers are distinct invokes
      every handler that has a matching subscription exactly once and every
      other handler never. */
  lemma PublishInvokesEachMatchingHandlerOnce(h: Hierarchy, m: seq<Sub>, e: Event, hd: Handler)
    requires DistinctHandlers(m)
    ensures multiset(Invocations(GetHandlers(h, m, Some(e)), e))[Invocation(hd, e)]
            == if HasMatchingHandler(h, m, e, hd) then 1 else 0
  {
    InvocationsCountHandler(GetHandlers(h, m, Some(e)), e, hd);
    MatchedHandlerCount(h, m, e, hd);
  }

  /** The state every bus sharing `reg` and `guids` relies on: handlers and
      ids are distinct, every id was drawn from `guids`, and every member's
      source is a live bus sharing the same registry and generator. */
  ghost function Sources(m: seq<Sub>): set<TukBus>
  {
    set s | s in m :: s.source
  }

  ghost predicate Consistent(reg: Registry, guids: GuidSource)
    reads reg, guids, Sources(reg.members)
  {
    && DistinctHandlers(reg.members)
    && DistinctIds(reg.members)
    && forall s :: s in reg.members ==>
         && s.id < guids.next
         && s.source.registry == reg
         && s.source.guids == guids
         && !s.source.isDisposed
  }

  /** The static bag of registered subscriptions. */
  class Registry {
    var members: seq<Sub>

    constructor ()
      ensures members == []
    {
      members := [];
    }

    /** `ConcurrentBag.Add`. */
    method Add(s: Sub)
      modifies this
      ensures members == old(members) + [s]
    {
      members := members + [s];
    }

    /** `ConcurrentBag.TryTake`: removes and returns some element, which one
        being unspecified; nothing when the bag is empty. */
    method TryTake() returns (taken: Option<Sub>)
      modifies this
      ensures taken.None? <==> old(members) == []
      ensures TryTaken(old(members), members)
      ensures taken.Some? ==> taken.value in old(members)
      ensures taken.Some? ==> multiset(members) == multiset(old(members)) - multiset{taken.value}
    {
      if members == [] {
        return None;
      }
      var i :| 0 <= i < |members|;
      taken := Some(members[i]);
      members := RemoveAt(members, i);
    }
  }

  /** Removing one member keeps the registry consistent. */
  lemma RemoveAtKeepsConsistent(m: seq<Sub>, i: nat)
    requires i < |m|
    requires DistinctHandlers(m) && DistinctIds(m)
    ensures DistinctHandlers(RemoveAt(m, i)) && DistinctIds(RemoveAt(m, i))
    ensures forall s :: s in RemoveAt(m, i) ==> s in m
  {
    var r := RemoveAt(m, i);
    forall a, b | 0 <= a < b < |r| ensures r[a].handler != r[b].handler && r[a].id != r[b].id {
      var a', b' := if a < i then a else a + 1, if b < i then b else b + 1;
      assert r[a] == m[a'] && r[b] == m[b'];
    }
    forall s | s in r ensures s in m {
      var k :| 0 <= k < |r| && r[k] == s;
      assert s == m[if k < i then k else k + 1];
    }
  }

  class TukBus {
    /** The shared static registry. */
    const registry: Registry
    /** The shared id generator. */
    const guids: GuidSource
    var isDisposed: bool

    ghost predicate Valid()
      reads registry, guids, Sources(registry.members)
    {
      Consistent(registry, guids)
    }

    constructor (shared: Registry, guidSource: GuidSource)
      ensures registry == shared && guids == guidSource && !isDisposed
    {
      registry := shared;
      guids := guidSource;
      isDisposed := false;
    }

    /** `ValidateState`: fails with an invalid-operation error exactly when
        the bus is disposed. */
    function ValidateState(): (r: Outcome)
      reads this
      ensures r.Fail? <==> isDisposed
      ensures r.Fail? ==> r.error == InvalidOperation(DisposedMessage)
    {
      if isDisposed then Fail(InvalidOperation(DisposedMessage)) else Pass
    }

    /** `Subscribe<T>`: on a live bus with a handler, draws a fresh id and
        then returns the registered subscription carrying an equal handler,
        whatever its event type, or else registers and returns the new one. */
    method Subscribe(eventType: Kind, handler: Option<Handler>) returns (r: Result<Sub>)
      requires Valid()
      modifies registry, guids
      ensures Valid()
      ensures isDisposed ==>
                r == Failure(InvalidOperation(DisposedMessage)) && unchanged(registry, guids)
      ensures !isDisposed && handler.None? ==>
                r == Failure(ArgumentNull("handler")) && unchanged(registry, guids)
      ensures !isDisposed && handler.Some? ==>
                && r.Success? && r.value.handler == handler.value
                && guids.next == old(guids.next) + 1
      ensures !isDisposed && handler.Some? && HasHandler(old(registry.members), handler.value) ==>
                r.value in old(registry.members) && registry.members == old(registry.members)
      ensures !isDisposed && handler.Some? && !HasHandler(old(registry.members), handler.value) ==>
                && r.value == EventSubscription(old(guids.next), eventType, handler.value, this)
                && registry.members == old(registry.members) + [r.value]
    {
      var state := ValidateState();
      if state.Fail? {
        return Failure(state.error);
      }
      if handler.None? {
        return Failure(ArgumentNull("handler"));
      }
      var created := NewSubscription(guids, Some(eventType), handler, Some(this));
      var sub := created.value;
      DistinctHandlersCountAtMostOne(registry.members, handler.value);
      var existing := SingleOrDefault(registry.members, handler.value).value;
      if existing.Some? {
        return Success(existing.value);
      }
      registry.Add(sub);
      r := Success(sub);
    }

    /** `Unsubscribe`: on a live bus, takes some member out of the registry,
        whichever the bag yields; the subscription named, which may be null,
        is not consulted. */
    method Unsubscribe(subscription: Option<Sub>) returns (r: Outcome)
      requires Valid()
      modifies registry
      ensures Valid()
      ensures isDisposed ==>
                r == Fail(InvalidOperation(DisposedMessage)) && unchanged(registry)
      ensures !isDisposed ==> r == Pass && TryTaken(old(registry.members), registry.members)
    {
      var state := ValidateState();
      if state.Fail? {
        return state;
      }
      ghost var before := registry.members;
      var removed := registry.TryTake();
      if before != [] {
        var i :| 0 <= i < |before| && registry.members == RemoveAt(before, i);
        RemoveAtKeepsConsistent(before, i);
      }
      r := Pass;
    }

    /** `Publish`: on a live bus, the handlers of the subscriptions whose
        selector the event is an instance of are invoked, each once, in turn
        (the dispatch the library hands to a background task). */
    method Publish(h: Hierarchy, ev: Option<Event>) returns (r: Result<seq<Invocation>>)
      ensures isDisposed ==> r == Failure(InvalidOperation(DisposedMessage))
      ensures !isDisposed && ev.None? ==> r == Success([])
      ensures !isDisposed && ev.Some? ==>
                r == Success(Invocations(GetHandlers(h, registry.members, ev), ev.value))
    {
      var state := ValidateState();
      if state.Fail? {
        return Failure(state.error);
      }
      var handlers := GetHandlers(h, registry.members, ev);
      var log: seq<Invocation> := [];
      for i := 0 to |handlers|
        invariant |log| == i
        invariant forall k :: 0 <= k < i ==> ev.Some? && log[k] == Invocation(handlers[k].handler, ev.value)
      {
        assert handlers[i] in handlers;
        var handled := Handle(handlers[i], ev);
        log := log + [handled.value];
      }
      if ev.Some? {
        assert log == Invocations(handlers, ev.value);
      }
      r := Success(log);
    }

    /** `Clear`: on a live bus, disposes every subscription the registry holds
        when the loop starts (each asking its source to unsubscribe it) and
        then replaces the registry with an empty one. */
    method Clear() returns (r: Outcome)
      requires Valid()
      modifies registry
      ensures Valid()
      ensures isDisposed ==>
                r == Fail(InvalidOperation(DisposedMessage)) && unchanged(registry)
      ensures !isDisposed ==> r == Pass && registry.members == []
    {
      var state := ValidateState();
      if state.Fail? {
        return state;
      }
      var snapshot := registry.members;
      var i := 0;
      while i < |snapshot|
        invariant 0 <= i <= |snapshot|
        invariant Valid()
        invariant |registry.members| == |snapshot| - i
        invariant forall s :: s in snapshot ==>
                    s.source.registry == registry && s.source.guids == guids && !s.source.isDisposed
      {
        ghost var before := registry.members;
        var released := DisposeSubscription(snapshot[i]);
        TryTakenShrinksByOne(before, registry.members);
        i := i + 1;
      }
      // One release per member has already drained the bag.
      assert registry.members == [];
      registry.members := [];
      r := Pass;
    }

    /** `Dispose`: on a live bus, clears the registry and marks the bus
        disposed for good; a second call fails. */
    method Dispose() returns (r: Outcome)
      requires Valid()
      modifies this, registry
      ensures Valid()
      ensures isDisposed
      ensures old(isDisposed) ==>
                r == Fail(InvalidOperation(DisposedMessage)) && unchanged(registry)
      ensures !old(isDisposed) ==> r == Pass && registry.members == []
    {
      var state := ValidateState();
      if state.Fail? {
        return state;
      }
      var cleared := Clear();
      isDisposed := true;
      r := Pass;
    }
  }

  /** `EventSubscription.Dispose`: asks the subscription's source bus to
      unsubscribe it. */
  method DisposeSubscription(sub: Sub) returns (r: Outcome)
    requires sub.source.Valid()
    modifies sub.source.registry
    ensures sub.source.Valid()
    ensures sub.source.isDisposed ==>
              r == Fail(InvalidOperation(DisposedMessage)) && unchanged(sub.source.registry)
    ensures !sub.source.isDisposed ==>
              r == Pass && TryTaken(old(sub.source.registry.members), sub.source.registry.members)
  {
    r := sub.source.Unsubscribe(Some(sub));
  }
}
