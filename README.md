# Order aggregate, event store, repository and command handler

A Dafny model of `order/order.go`. That file holds an event-sourced order
aggregate with its in-memory infrastructure. The parts are:

- `Order`: a two-state machine (`StatusPlaced` is the zero value, then
  `StatusActivated`). Every event goes through one `apply` routine. It takes
  the order's identifier from the event and sets the status from the event's
  variant (`handle`). When the event is new, it also appends the event to the
  `uncommitted` buffer. `loadFromHistory` replays a history through the same
  routine.
- `eventStore`: one flat, append-only slice. `Save` appends and ignores its
  identifier. `Load` filters by identifier in stored order and reports
  not-found when nothing matches.
- `defaultRepository`: `Save` forwards the buffer only when it is non-empty.
  `Load` replays the stored history, or returns the zero `Order{}` when the
  store reports an error (a "soft miss").
- `commandHandler.Handle`: routes a `Place` command (seed a fresh order with
  the command's identifier, place it, save) or an `Activate` command (load,
  activate, save). Anything else has no effect.

Files and modules:

- `events.dfy` (`Events`): statuses, events, lines, commands and error kinds as closed datatypes.
- `order_aggregate.dfy` (`OrderAggregate`):
  - the class `Order`, whose methods `Handle`, `Apply`, `Place` and `Activate` update `id`, `status` and `uncommitted` in place;
  - the method `LoadFromHistory`;
  - the specification functions `Applied`, `Replay`, `PlaceOn` and `ActivateOn` that those methods are proved against.
- `event_store.dfy` (`EventStorage`): the class `EventStore` over `events: seq<Event>`, and the function `Filter` that specifies its `Load` loop.
- `repository.dfy` (`Repositories`): the class `Repository`, and `Loaded`, which gives the order a load returns for a given log.
- `command_handler.dfy` (`CommandHandling`): the class `CommandHandler`, and `AfterHandle`, which gives the event log after one command.
- `scenarios.dfy` (`Scenarios`): the two scenarios of `order/order_test.go` plus three more, stated against the classes.

The model follows the code as written, in two places where a natural reading
of the design differs:

- `Place` returns the already-placed error when the order's identifier is
  EMPTY (order/order.go:33-35), although its doc comment says "if not already
  placed". `Handle` seeds the order with the command's identifier first, so
  a Place command with a non-empty identifier and at least one line
  succeeds, and one with an empty identifier fails with `AlreadyPlaced`.
- Activating an order that has no stored history is not a no-op. The
  repository returns the zero `Order{}`, whose status is `StatusPlaced`, so
  `Activate` fires. The store then records `Activated("")`. A non-empty
  identifier that was asked for is still not found (`ActivateUnknown`).

## Model

| member | source | states |
|---|---|---|
| `OrderAggregate.Replay` | order/order.go:94-121 | Replay keeps the buffer; an empty history changes nothing; otherwise the identifier is that of the last event and the status is the one the last event's variant sets |
| `OrderAggregate.ReplayConcat` | order/order.go:94-100 | replaying es1 ++ es2 equals replaying es2 from the state es1 left (replay is a left fold) |
| `OrderAggregate.ReplayGenerated` | order/order.go:103-111 | replaying the events an order generated, from the zero order, reproduces its identifier and status with an empty buffer |
| `OrderAggregate.PlaceOn` | order/order.go:31-44 | empty identifier: AlreadyPlaced and nothing changes; no lines: EmptyOrderLine and nothing changes; success exactly when both hold, and then the identifier is kept, the status is StatusPlaced and exactly Placed(id) is appended; the identifier never changes; the buffer invariant is preserved |
| `OrderAggregate.ActivateOn` | order/order.go:46-51 | from StatusPlaced, exactly Activated(id) is appended and the status becomes StatusActivated; otherwise nothing changes; the identifier is kept; the buffer invariant is preserved |
| `OrderAggregate.ActivateIdempotent` | order/order.go:47-51 | a second activation adds no event and changes nothing |
| `OrderAggregate.ActivateZeroFires` | order/order.go:18-51 | activating the zero order buffers Activated("") and sets StatusActivated |
| `OrderAggregate.Order.Init` | order/order.go:24-29 | an order literal: the given identifier, the zero status and an empty buffer |
| `OrderAggregate.Order.Handle` | order/order.go:113-121 | the status becomes the one the event's variant sets |
| `OrderAggregate.Order.Apply` | order/order.go:102-111 | the identifier comes from the event, the status from its variant, and the event is appended to the buffer exactly when it is new |
| `OrderAggregate.Order.Place` | order/order.go:31-44 | the new order state and the returned error are those of PlaceOn |
| `OrderAggregate.Order.Activate` | order/order.go:46-51 | the new order state is that of ActivateOn |
| `OrderAggregate.LoadFromHistory` | order/order.go:93-100 | returns a fresh order equal to the replay of the history from the zero order |
| `EventStorage.Filter` | order/order.go:137-143 | every kept event is a stored event of the order asked for; every stored event of that order is kept; never longer than the log |
| `EventStorage.FilterConcat` | order/order.go:133-143 | filtering distributes over appending, so the kept events stay in stored order |
| `EventStorage.FilterSnoc` | order/order.go:139-143 | one more stored event is kept at the end exactly when it belongs to the order asked for |
| `EventStorage.FilterKeepsOwn` | order/order.go:137-143 | a sequence of events of one order passes that order's filter whole |
| `EventStorage.FilterDropsOthers` | order/order.go:137-143 | events of other orders never pass the filter |
| `EventStorage.EventStore.constructor` | order/order.go:129-131 | a new store holds no events |
| `EventStorage.EventStore.Save` | order/order.go:133-135 | the log becomes the old log followed by the saved events; the identifier plays no part |
| `EventStorage.EventStore.Load` | order/order.go:137-150 | fails with OrderNotFound exactly when no stored event belongs to the order; otherwise returns that order's stored events in stored order |
| `Repositories.Loaded` | order/order.go:174-182 | the loaded order has an empty buffer; with no history it is the zero order; otherwise its identifier is the one asked for and its status is the one the last stored event sets |
| `Repositories.SoftMissIsEmptyReplay` | order/order.go:175-181 | the soft miss gives the same order as replaying an empty history |
| `Repositories.SaveThenLoad` | order/order.go:167-182 | saving an order's uncommitted events and loading it by its identifier reproduces its identifier and status |
| `Repositories.Repository.constructor` | order/order.go:163-165 | the repository wraps the given store |
| `Repositories.Repository.Save` | order/order.go:167-172 | the store's log gains exactly the order's uncommitted events, and the store is untouched when there are none |
| `Repositories.Repository.Load` | order/order.go:174-182 | returns a fresh order whose state is Loaded of the store's log |
| `CommandHandling.AfterHandle` | order/order.go:200-215 | a command only appends to the log, at most one event; a successful Place appends exactly Placed(id); an Activate of an order whose last stored event is Activated appends nothing; an Activate of an order with no history appends Activated(""); an unrecognised command appends nothing |
| `CommandHandling.PlaceThenLoad` | order/order.go:202-209 | after a successful Place command, loading the order gives its identifier, StatusPlaced and an empty buffer, whatever was stored before |
| `CommandHandling.FailedPlaceLeavesStore` | order/order.go:202-209 | a Place command with an empty identifier or no lines leaves the log unchanged |
| `CommandHandling.ActivateThenLoad` | order/order.go:210-213 | after an Activate command for an order with a stored history, loading it gives StatusActivated |
| `CommandHandling.ActivateUnknown` | order/order.go:210-213 | an Activate command for an order with no history stores exactly Activated(""), and a non-empty identifier stays not found |
| `CommandHandling.CommandHandler.constructor` | order/order.go:196-198 | the handler wraps the given repository |
| `CommandHandling.CommandHandler.Handle` | order/order.go:200-215 | the store's log after the call is AfterHandle of the log before it |
| `Scenarios.PlaceOrderScenario` | order/order_test.go:7-24 | Place ABC123 with one line on a fresh store, then load: identifier ABC123, StatusPlaced |
| `Scenarios.ActivateOrderScenario` | order/order_test.go:26-45 | Place then Activate ABC123, then load: identifier ABC123, StatusActivated |
| `Scenarios.ActivateUnknownScenario` | order/order.go:175-179 | Activate UNKNOWN on a fresh store: the log is [Activated("")], the store reports UNKNOWN not found, and the repository returns the zero order |
| `Scenarios.EmptyPlaceScenario` | order/order.go:202-209 | Place X with no lines on a fresh store: the store reports X not found |
| `Scenarios.ReplayOrderScenario` | order/order.go:174-182 | Placed Y then Activated Y appended to the store load back as Y, StatusActivated |

## Left out

- `log.Println` in `Handle` (order/order.go:207) is output. `Order.Place` returns the error, and `Handle` discards it.
- The `EventStore`, `Repository` and `CommandHandler` interfaces and the `NewEventStore`, `NewRepository` and `NewCommandHandler` functions are not modelled. Each component is one concrete class, and its constructor stands in for the `New…` function.
- The `interface{}` type switches over commands and events are replaced by closed datatypes. An unknown command is the variant `OtherCmd`, which has no effect. Events have only the two variants, so `handle`'s silent skip of unknown events has no counterpart.
- `Status` is a named `int` in Go, so values other than 0 and 1 can be written into the field, and `Activate` leaves such an order unchanged. The model's `Status` has only the two declared values, so it does not capture such out-of-range statuses.
- `Line` is an empty struct, modelled as a one-value datatype. Only whether the list is empty matters.
- The error sentinels are modelled as the datatypes `OrderError` and `StoreError`. Error messages are not modelled.
- Go's value semantics for `Order`: the model passes the `Order` object by reference to `Repository.Save`, which only reads it, so nothing observable changes.
- Go slice aliasing between `uncommitted` and the store's slice is not modelled. Both are values (`seq`) here.
