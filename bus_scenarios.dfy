/** Scenarios from the bus's test suite, stated as methods whose contracts
    follow from the bus's contracts alone. Each starts from a fresh static
    state: an empty registry and a fresh id generator. */
module BusScenarios {
  import opened Errors
  import opened EventKinds
  import opened Subscriptions
  import opened Bus

  /** One handler subscribed twice, through two buses and for two kinds,
      yields the first subscription both times; the second call still used
      up an id. */
  method DedupAcrossKindsAndBuses(hd: Handler, k1: Kind, k2: Kind)
    returns (first: Result<Sub>, second: Result<Sub>, idsDrawn: nat)
    ensures first.Success? && first == second
    ensures first.value.eventType == k1
    ensures idsDrawn == 2
  {
    var reg := new Registry();
    var guids := new GuidSource();
    var a := new TukBus(reg, guids);
    var b := new TukBus(reg, guids);
    first := a.Subscribe(k1, Some(hd));
    assert reg.members == [first.value] && reg.members[0].handler == hd;
    assert HasHandler(reg.members, hd);
    second := b.Subscribe(k2, Some(hd));
    idsDrawn := guids.next;
  }

  /** Clearing through one bus empties the registry every bus sees: a
      subscription made through `a` no longer receives events published
      through `a` after `b` is cleared. */
  method ClearIsShared(h: Hierarchy, hd: Handler, e: Event)
    returns (before: Result<seq<Invocation>>, after: Result<seq<Invocation>>)
    ensures before == Success([Invocation(hd, e)])
    ensures after == Success([])
  {
    var reg := new Registry();
    var guids := new GuidSource();
    var a := new TukBus(reg, guids);
    var b := new TukBus(reg, guids);
    var sub := a.Subscribe(e.kind, Some(hd));
    assert reg.members == [sub.value];
    assert GetHandlers(h, [sub.value], Some(e)) == [sub.value];
    assert Invocations([sub.value], e) == [Invocation(hd, e)];
    before := a.Publish(h, Some(e));
    var cleared := b.Clear();
    after := a.Publish(h, Some(e));
  }

  /** Two handlers for two unrelated kinds: publishing an event of the first
      kind calls the first handler only. */
  method OnlyMatchingHandlerCalled(h1: Handler, h2: Handler, e: Event, other: Kind)
    returns (calls: Result<seq<Invocation>>)
    requires h1 != h2 && other != e.kind
    ensures calls == Success([Invocation(h1, e)])
  {
    var h := Hierarchy(map[]);
    var reg := new Registry();
    var guids := new GuidSource();
    var bus := new TukBus(reg, guids);
    var s1 := bus.Subscribe(e.kind, Some(h1));
    var s2 := bus.Subscribe(other, Some(h2));
    assert reg.members == [s1.value, s2.value];
    assert !IsSubscribedTo(h, s2.value, Some(e));
    assert GetHandlers(h, [s2.value], Some(e)) == [];
    assert GetHandlers(h, reg.members, Some(e)) == [s1.value];
    assert Invocations([s1.value], e) == [Invocation(h1, e)];
    calls := bus.Publish(h, Some(e));
  }

  /** After disposal every operation of the bus fails with the
      invalid-operation error, a second disposal included, while another bus
      sharing the registry keeps working. */
  method DisposedBusRejectsEverything(h: Hierarchy, hd: Handler, e: Event)
    returns (subscribe: Result<Sub>, publish: Result<seq<Invocation>>, clear: Outcome,
             dispose: Outcome, unsubscribe: Outcome, otherBus: Result<Sub>)
    ensures subscribe == Failure(InvalidOperation(DisposedMessage))
    ensures publish == Failure(InvalidOperation(DisposedMessage))
    ensures clear == Fail(InvalidOperation(DisposedMessage))
    ensures dispose == Fail(InvalidOperation(DisposedMessage))
    ensures unsubscribe == Fail(InvalidOperation(DisposedMessage))
    ensures otherBus.Success?
  {
    var reg := new Registry();
    var guids := new GuidSource();
    var bus := new TukBus(reg, guids);
    var survivor := new TukBus(reg, guids);
    var first := bus.Dispose();
    subscribe := bus.Subscribe(e.kind, Some(hd));
    publish := bus.Publish(h, Some(e));
    clear := bus.Clear();
    dispose := bus.Dispose();
    unsubscribe := bus.Unsubscribe(Some(EventSubscription(0, e.kind, hd, bus)));
    otherBus := survivor.Subscribe(e.kind, Some(hd));
  }
}
