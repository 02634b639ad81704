/** End-to-end sequences of handler calls over a fresh store, written against the
    classes: the two scenarios of order/order_test.go and three more that pin
    down the soft miss and replay order. */
module Scenarios {
  import opened Events
  import opened OrderAggregate
  import opened EventStorage
  import opened Repositories
  import opened CommandHandling

  /** Place ABC123 with one line, then load it: placed, with its identifier. */
  method PlaceOrderScenario() returns (o: OrderValue)
    ensures o == OrderValue("ABC123", StatusPlaced, [])
  {
    var store := new EventStore();
    var repo := new Repository(store);
    var handler := new CommandHandler(repo);
    handler.Handle(PlaceCmd("ABC123", [Line]));
    var loaded := repo.Load("ABC123");
    o := loaded.Value();
    PlaceThenLoad([], "ABC123", [Line]);
  }

  /** Place ABC123, activate it, then load it: activated. */
  method ActivateOrderScenario() returns (o: OrderValue)
    ensures o == OrderValue("ABC123", StatusActivated, [])
  {
    var store := new EventStore();
    var repo := new Repository(store);
    var handler := new CommandHandler(repo);
    handler.Handle(PlaceCmd("ABC123", [Line]));
    PlaceThenLoad([], "ABC123", [Line]);
    ghost var placedLog := store.events;
    assert Filter(placedLog, "ABC123") != [];
    handler.Handle(ActivateCmd("ABC123"));
    ActivateThenLoad(placedLog, "ABC123");
    var loaded := repo.Load("ABC123");
    o := loaded.Value();
  }

  /** Activate an order nobody placed: the store still reports UNKNOWN as not
      found, the repository hands back the zero order, and the log holds the
      one Activated event with an empty identifier. */
  method ActivateUnknownScenario() returns (stored: seq<Event>, lookup: Result<seq<Event>, StoreError>, o: OrderValue)
    ensures stored == [Activated("")]
    ensures lookup == Failure(OrderNotFound)
    ensures o == ZeroOrder
  {
    var store := new EventStore();
    var repo := new Repository(store);
    var handler := new CommandHandler(repo);
    handler.Handle(ActivateCmd("UNKNOWN"));
    ActivateUnknown([], "UNKNOWN");
    stored := store.events;
    lookup := store.Load("UNKNOWN");
    var loaded := repo.Load("UNKNOWN");
    o := loaded.Value();
  }

  /** Place X with no lines: nothing reaches the store. */
  method EmptyPlaceScenario() returns (lookup: Result<seq<Event>, StoreError>)
    ensures lookup == Failure(OrderNotFound)
  {
    var store := new EventStore();
    var repo := new Repository(store);
    var handler := new CommandHandler(repo);
    handler.Handle(PlaceCmd("X", []));
    FailedPlaceLeavesStore([], "X", []);
    lookup := store.Load("X");
  }

  /** Events appended straight to the store replay in the order stored. */
  method ReplayOrderScenario() returns (o: OrderValue)
    ensures o == OrderValue("Y", StatusActivated, [])
  {
    var store := new EventStore();
    var repo := new Repository(store);
    store.Save("Y", [Placed("Y"), Activated("Y")]);
    FilterKeepsOwn([Placed("Y"), Activated("Y")], "Y");
    var loaded := repo.Load("Y");
    o := loaded.Value();
  }
}
