# TukTuk event bus, modelled in Dafny

TukTuk is an in-process publish/subscribe bus for .NET. Callers subscribe a
handler delegate for an event type, publish event instances, and the bus hands
each event to every handler whose event type the event is an instance of. A
subscription is an immutable record (`EventSubscription`): an event-type
selector, a handler, a back-reference to the bus that removes it, and a
`Guid` id that alone decides equality and hashing. The bus (`TukBus`) keeps the
subscriptions in a `ConcurrentBag` and has a disposed flag. Every operation
checks that flag first.

The model reproduces the code as written, including these behaviours:

- The bag is a `static` field. Every bus in the process shares it, so clearing
  or disposing one bus empties the registry of all of them. The model has one
  `Registry` object that every `TukBus` refers to. The id generator behind
  `Guid.NewGuid` is shared the same way, as a `GuidSource` counter.
- `Subscribe` dedups on handler equality alone. A handler already registered
  for any event type gets the existing subscription back, whatever event type
  is asked for.
- `Subscribe` builds the new subscription before the dedup lookup, so an id is
  drawn even when the existing subscription is returned.
- `Unsubscribe` ignores its argument and `TryTake`s some member of the bag. The
  model removes a nondeterministically chosen element.
- `Clear` disposes every subscription in a snapshot of the bag. Each disposal
  asks that subscription's own bus to `Unsubscribe`, and so takes some member.
  Then `Clear` installs an empty bag.

Three behaviours of the code look unintended. Every bus shares one registry,
`Unsubscribe` removes an arbitrary member rather than the one it is given, and
dedup ignores the event type. The model follows the code.
`BusScenarios.ClearIsShared`, `Bus.TryTakeIsNotTargeted` and
`BusScenarios.DedupAcrossKindsAndBuses` exhibit them.

Modules:

- `Errors`: `Option`, plus `Result` and `Outcome` carrying the two exception
  kinds the library throws (argument-null with the parameter name, and
  invalid-operation with a message).
- `EventKinds`: event types as tags, with a declared hierarchy. `IsA` is the
  reflexive-transitive "is an instance of" relation that stands in for
  `Type.IsInstanceOfType`. A hierarchy must number every base below the
  types derived from it (`WellFormed`), as a base type is declared first. A
  base entry that breaks this rule is ignored by `IsA`.
- `Subscriptions`: `EventSubscription.cs`. The record is generic in the type of
  its unsubscribe source.
- `Bus`: `TukBus.cs`, with the registry, the bus class, the invariant that every
  bus sharing a registry relies on, and `EventSubscription.Dispose`. That last
  one is here because it calls back into the bus.
- `BusScenarios`: the unit tests' scenarios, stated as verified methods.

The invariant `Bus.Consistent(registry, guids)` has four parts. Handlers in the
registry are pairwise distinct, so `SingleOrDefault` never throws. Ids are
pairwise distinct. Every id was drawn from the shared counter. Every member's
source bus shares the registry and is not disposed, so the `Unsubscribe` calls
made from `Clear` never throw. Every mutating operation preserves it.

## Model

| member | source | states |
|---|---|---|
| `EventKinds.IsA` | Provausio.TukTuk/EventSubscription.cs:45 | the reflexive-transitive closure of the declared bases: every type is an instance of itself, every declared base of a well-formed hierarchy is an instance of it, and a type is only an instance of types declared no later than itself |
| `EventKinds.IsATransitive` | Provausio.TukTuk/EventSubscription.cs:43-46 | is-a is transitive: an instance of a derived type is an instance of every base of its bases |
| `EventKinds.IsAAntisymmetric` | Provausio.TukTuk/EventSubscription.cs:43-46 | two types that are instances of each other are the same type |
| `Subscriptions.GuidSource.constructor` | Provausio.TukTuk/EventSubscription.cs:32 | the id generator starts with no id handed out |
| `Subscriptions.GuidSource.NewGuid` | Provausio.TukTuk/EventSubscription.cs:32 | each call hands out an id never handed out before and advances the generator |
| `Subscriptions.NewSubscription` | Provausio.TukTuk/EventSubscription.cs:21-36 | succeeds exactly when handler, event type and source are all present. Otherwise it fails with argument-null naming the first missing one in the order handler, eventType, unsubscribeSource, and draws no id. On success it stores the three inputs unchanged with a freshly drawn id |
| `Subscriptions.ConstructTwice` | Provausio.TukTuk/EventSubscription.cs:32 | two subscriptions built from identical inputs are not equal |
| `Subscriptions.IsSubscribedTo` | Provausio.TukTuk/EventSubscription.cs:43-46 | a null event matches no subscription, and an event of exactly the selected type always matches |
| `Subscriptions.SubtypeMatching` | Provausio.TukTuk/EventSubscription.cs:43-46 | a subscription for a base type receives base and derived instances; one for a proper derived type does not receive a bare base instance |
| `Subscriptions.MatchInherited` | Provausio.TukTuk/EventSubscription.cs:43-46 | a subscription that receives events of a type receives events of every type derived from it |
| `Subscriptions.Handle` | Provausio.TukTuk/EventSubscription.cs:53-59 | fails with argument-null "ev" exactly when the event is null, and then invokes nothing; otherwise it invokes the stored handler exactly once, with that event |
| `Subscriptions.Equals` | Provausio.TukTuk/EventSubscription.cs:61-70 | equals exactly the subscriptions with its id; never null or a value of another type |
| `Subscriptions.EqualsById` | Provausio.TukTuk/EventSubscription.cs:61-70 | equal exactly when the ids are equal, whatever the other fields; reflexive, symmetric and transitive; never equal to null or to a value of another type |
| `Subscriptions.GuidHash` | Provausio.TukTuk/EventSubscription.cs:72-75 | the id's hash is a signed 32-bit value |
| `Subscriptions.HashCode` | Provausio.TukTuk/EventSubscription.cs:72-75 | a subscription's hash is a signed 32-bit value computed from its id |
| `Subscriptions.EqualsAgreesWithHash` | Provausio.TukTuk/EventSubscription.cs:61-75 | equal subscriptions have equal hashes |
| `Bus.RemoveAt` | Provausio.TukTuk/TukBus.cs:57-58 | removing one element leaves the others in order, and the bag loses exactly that element |
| `Bus.TryTakenShrinksByOne` | Provausio.TukTuk/TukBus.cs:57-58 | a take shrinks a non-empty bag by exactly one of its members and leaves an empty bag empty |
| `Bus.TryTakeIsNotTargeted` | Provausio.TukTuk/TukBus.cs:53-59 | an unsubscribe from a registry holding x then y may keep either one, so it can drop a subscription other than the one named |
| `Bus.CountHandler` | Provausio.TukTuk/TukBus.cs:39 | the number of members carrying a handler is zero exactly when none carries it |
| `Bus.DistinctHandlersCountAtMostOne` | Provausio.TukTuk/TukBus.cs:39-44 | while handlers are distinct, a handler is carried by at most one member |
| `Bus.SingleOrDefault` | Provausio.TukTuk/TukBus.cs:39 | the lookup fails with invalid-operation exactly when two or more members carry the handler. It gives none exactly when no member carries it, and otherwise the member that does |
| `Bus.GetHandlers` | Provausio.TukTuk/TukBus.cs:108-117 | returns exactly the registry members the event is an instance of, without adding or duplicating any; a null event reaches nobody |
| `Bus.Invocations` | Provausio.TukTuk/TukBus.cs:74-77 | dispatch makes one call per matched subscription, in turn, with its handler and the event |
| `Bus.CountHandlerAppend` | Provausio.TukTuk/TukBus.cs:39 | a handler's count in two runs of members is the sum of its counts in each |
| `Bus.InvocationsCountHandler` | Provausio.TukTuk/TukBus.cs:74-77 | a dispatch calls a handler as many times as the dispatched subscriptions carry it |
| `Bus.MatchedHandlerCount` | Provausio.TukTuk/TukBus.cs:108-117 | with distinct handlers, the matched subscriptions carry a handler once if some member with it receives the event, otherwise never |
| `Bus.PublishInvokesEachMatchingHandlerOnce` | Provausio.TukTuk/TukBus.cs:66-79 | with distinct handlers, a publish invokes every handler that has a matching subscription exactly once and every other handler never |
| `Bus.RemoveAtKeepsConsistent` | Provausio.TukTuk/TukBus.cs:57-58 | removing a member keeps handlers and ids distinct and adds no member |
| `Bus.Registry.constructor` | Provausio.TukTuk/TukBus.cs:12-13 | the shared bag starts empty |
| `Bus.Registry.Add` | Provausio.TukTuk/TukBus.cs:44 | adds exactly the subscription and keeps every existing member |
| `Bus.Registry.TryTake` | Provausio.TukTuk/TukBus.cs:58 | takes nothing from an empty bag. From a non-empty bag it removes and returns one member, which one being unspecified |
| `Bus.TukBus.constructor` | Provausio.TukTuk/TukBus.cs:11-21 | a new bus refers to the shared registry and id generator and is not disposed |
| `Bus.TukBus.ValidateState` | Provausio.TukTuk/TukBus.cs:119-123 | fails with invalid-operation "The bus has already been disposed." exactly when the bus is disposed |
| `Bus.TukBus.Subscribe` | Provausio.TukTuk/TukBus.cs:30-47 | on a disposed bus it fails with invalid-operation and changes nothing. A null handler fails next with argument-null "handler" and changes nothing. Otherwise it draws one id. If a member already carries an equal handler, it returns that member whatever its event type, and the registry is unchanged. If not, it appends and returns a subscription with the new id, the requested type, the handler and this bus as source. Consistency is preserved, and the disposed flag is untouched |
| `Bus.TukBus.Unsubscribe` | Provausio.TukTuk/TukBus.cs:53-59 | on a disposed bus it fails and changes nothing. Otherwise it removes one unspecified member when the registry is non-empty, and nothing when it is empty. The subscription passed in, which may be null, plays no part |
| `Bus.TukBus.Publish` | Provausio.TukTuk/TukBus.cs:66-79 | on a disposed bus it fails with invalid-operation. Otherwise it invokes, in turn, the handler of each member the event is an instance of, with the event; a null event invokes nothing. It changes no state |
| `Bus.TukBus.Clear` | Provausio.TukTuk/TukBus.cs:84-96 | on a disposed bus it fails and changes nothing. Otherwise it disposes each member of a snapshot and then leaves the shared registry empty. Consistency is preserved |
| `Bus.TukBus.Dispose` | Provausio.TukTuk/TukBus.cs:101-106 | on a disposed bus it fails and changes nothing. Otherwise it empties the shared registry. Either way the bus is disposed afterwards; no operation clears the flag |
| `Bus.DisposeSubscription` | Provausio.TukTuk/EventSubscription.cs:80-83 | `EventSubscription.Dispose`: has exactly the effect and outcome of its source bus's `Unsubscribe` |
| `BusScenarios.DedupAcrossKindsAndBuses` | src/Provausio.TukTuk.Tests/TukBusTests.cs:47-59 | one handler subscribed through two buses for two types yields the first subscription both times, and two ids are drawn |
| `BusScenarios.ClearIsShared` | Provausio.TukTuk/TukBus.cs:12-13 | after a subscription through one bus, a publish calls its handler once. Once another bus is cleared, the same publish calls nothing |
| `BusScenarios.OnlyMatchingHandlerCalled` | src/Provausio.TukTuk.Tests/TukBusTests.cs:113-133 | with two handlers for two unrelated types, publishing an event of the first type calls only the first handler, once |
| `BusScenarios.DisposedBusRejectsEverything` | src/Provausio.TukTuk.Tests/TukBusTests.cs:61-72 | after disposal, Subscribe, Publish, Clear, a second Dispose and Unsubscribe all fail with invalid-operation, while another bus sharing the registry still subscribes |

## Left out

- Asynchronous dispatch: `Publish` hands the handler calls to `Task.Run` and returns. The model runs them in turn, inside `Publish`, and returns the calls as a log.
- Lazy matching: `GetHandlers` returns an unevaluated `Where` over the bag that is current when `Publish` is called. The match runs inside the task, so it sees that bag's contents when the task runs. A bag that `Clear` installs later is never seen, so a subscription made after that `Clear` but before the task runs is not dispatched to. The model matches against the registry at the time of the call.
- Thread safety: the `lock` in `Clear`, and the concurrent behaviour of `ConcurrentBag`. Only their sequential effect is modelled.
- Bus.TukBus.Publish: its log follows the model's registry order, which the bag does not promise; the bag's enumeration order is unspecified. Only the counting lemmas (`Bus.InvocationsCountHandler`, `Bus.MatchedHandlerCount`, `Bus.PublishInvokesEachMatchingHandlerOnce`) are independent of that order.
- Handler bodies and their exceptions: handlers are opaque values compared by equality. A handler that throws inside the dispatch task is not modelled.
- Reflection: `typeof(T)` and `Type.IsInstanceOfType` become tags with a declared hierarchy. `typeof(T)` is never null, so `Subscribe` takes a plain tag.
- `Guid.NewGuid`: replaced by a counter, and `GetHashCode` by a fold of the id into 32 bits. Real hash distribution is not modelled, so the "different hash codes" unit test, which rests on probabilistic uniqueness, has no counterpart.
- `Clear` assigns a new bag to the static field. The model empties the shared `Registry` object, which every bus refers to in the same way.
- `src/Provausio.TukTuk/IEventBus.cs` and `src/Provausio.TukTuk/IUnsubscribeSource.cs` are interfaces without logic. They only shape the signatures, through the source type parameter of `EventSubscription`.
- `src/Provausio.TukTuk.Sample/Program.cs` is a console demo and is not part of this model.
