/** The repository between the aggregate and the event store: it saves what
    an order generated and rebuilds an order by replaying its stored history. */
module Repositories {
  import opened Events
  import opened OrderAggregate
  import opened EventStorage

  /** The order the repository hands back for `id` from the log `events`: the
      zero order when the store reports not found, otherwise the replay of
      the order's stored history. */
  function Loaded(events: seq<Event>, id: string): (r: OrderValue)
    ensures r.uncommitted == []
    ensures Filter(events, id) == [] ==> r == ZeroOrder
    ensures Filter(events, id) != [] ==>
      r.id == id && r.status == StatusAfter(Last(Filter(events, id)))
  {
    var history := Filter(events, id);
    if history == [] then ZeroOrder else Replay(ZeroOrder, history)
  }

  /** The soft miss cannot be told apart from replaying an empty history. */
  lemma SoftMissIsEmptyReplay(events: seq<Event>, id: string)
    ensures Loaded(events, id) == Replay(ZeroOrder, Filter(events, id))
  {
  }

  /** Saving what an order generated and loading it back by its identifier
      reproduces its identifier and status, with nothing left to commit. */
  lemma SaveThenLoad(events: seq<Event>, o: OrderValue)
    requires Coherent(o) && o.uncommitted != []
    ensures Loaded(events + o.uncommitted, o.id) == OrderValue(o.id, o.status, [])
  {
    FilterConcat(events, o.uncommitted, o.id);
    FilterKeepsOwn(o.uncommitted, o.id);
    var history := Filter(events + o.uncommitted, o.id);
    assert Last(history) == Last(o.uncommitted);
  }

  class Repository {
    var store: EventStore

    constructor (store: EventStore)
      ensures this.store == store
    {
      this.store := store;
    }

    /** Forward the order's uncommitted events to the store, and only when
        there are some. */
    method Save(order: Order)
      modifies store
      ensures store.events == old(store.events) + order.uncommitted
      ensures order.uncommitted == [] ==> unchanged(store)
    {
      if |order.uncommitted| > 0 {
        store.Save(order.id, order.uncommitted);
      }
    }

    /** Rebuild order `id` from the store; a store error yields the zero order. */
    method Load(id: string) returns (o: Order)
      ensures fresh(o)
      ensures o.Value() == Loaded(store.events, id)
    {
      var loaded := store.Load(id);
      if loaded.Failure? {
        o := new Order.Init("");
        return;
      }
      o := LoadFromHistory(loaded.value);
    }
  }
}
