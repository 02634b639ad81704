/** The command handler: routes a command to the aggregate and persists what
    the aggregate generated through the repository. */
module CommandHandling {
  import opened Events
  import opened OrderAggregate
  import opened EventStorage
  import opened Repositories

  /** The event log after handling `cmd` against the log `events`. A Place
      command places a fresh order seeded with the command's identifier; an
      Activate command activates the order the repository loads; anything
      else has no effect. A failed Place is dropped and saves nothing. */
  function AfterHandle(events: seq<Event>, cmd: Command): (r: seq<Event>)
    ensures events <= r
    ensures |r| <= |events| + 1
    ensures cmd.OtherCmd? ==> r == events
    ensures cmd.PlaceCmd? && cmd.orderId != "" && cmd.lines != [] ==>
      r == events + [Placed(cmd.orderId)]
    ensures cmd.ActivateCmd? && Filter(events, cmd.orderId) != [] && Last(Filter(events, cmd.orderId)).Activated?
      ==> r == events
    ensures cmd.ActivateCmd? && Filter(events, cmd.orderId) == [] ==>
      r == events + [Activated("")]
  {
    match cmd
    case PlaceCmd(id, lines) =>
      events + PlaceOn(OrderValue(id, StatusPlaced, []), lines).order.uncommitted
    case ActivateCmd(id) =>
      events + ActivateOn(Loaded(events, id)).uncommitted
    case OtherCmd =>
      events
  }

  /** A successful Place is visible to the next load of the same order. */
  lemma PlaceThenLoad(events: seq<Event>, id: string, lines: seq<Line>)
    requires id != "" && lines != []
    ensures Loaded(AfterHandle(events, PlaceCmd(id, lines)), id) == OrderValue(id, StatusPlaced, [])
  {
    var placed := PlaceOn(OrderValue(id, StatusPlaced, []), lines).order;
    SaveThenLoad(events, placed);
  }

  /** A Place command with an empty identifier or no lines leaves the log as it was. */
  lemma FailedPlaceLeavesStore(events: seq<Event>, id: string, lines: seq<Line>)
    requires id == "" || lines == []
    ensures AfterHandle(events, PlaceCmd(id, lines)) == events
  {
  }

  /** Activating an order that has a stored history leaves it activated,
      whether or not it already was. */
  lemma ActivateThenLoad(events: seq<Event>, id: string)
    requires Filter(events, id) != []
    ensures Loaded(AfterHandle(events, ActivateCmd(id)), id) == OrderValue(id, StatusActivated, [])
  {
    var activated := ActivateOn(Loaded(events, id));
    if activated.uncommitted != [] {
      SaveThenLoad(events, activated);
    } else {
      assert events + activated.uncommitted == events;
    }
  }

  /** Activating an order with no stored history activates the zero order:
      an Activated event with an empty identifier is stored, and the order
      asked for is still not found. */
  lemma ActivateUnknown(events: seq<Event>, id: string)
    requires Filter(events, id) == []
    ensures AfterHandle(events, ActivateCmd(id)) == events + [Activated("")]
    ensures id != "" ==> Filter(AfterHandle(events, ActivateCmd(id)), id) == []
  {
    FilterConcat(events, [Activated("")], id);
    if id != "" {
      FilterDropsOthers([Activated("")], id);
    }
  }

  class CommandHandler {
    var repository: Repository

    constructor (repository: Repository)
      ensures this.repository == repository
    {
      this.repository := repository;
    }

    method Handle(cmd: Command)
      modifies repository.store
      ensures repository.store.events == AfterHandle(old(repository.store.events), cmd)
    {
      if cmd.PlaceCmd? {
        var order := new Order.Init(cmd.orderId);
        var _ := order.Place(cmd.lines);
        repository.Save(order);
      } else if cmd.ActivateCmd? {
        var order := repository.Load(cmd.orderId);
        order.Activate();
        repository.Save(order);
      }
    }
  }
}
