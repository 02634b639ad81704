/** The Order aggregate: a two-state machine whose every state change goes
    through one event-application routine, and the replay of a history
    through that same routine. */
module OrderAggregate {
  import opened Events

  /** The value of an Order struct: its identifier, its status and the events
      it generated since it was created or loaded. */
  datatype OrderValue = OrderValue(id: string, status: Status, uncommitted: seq<Event>)

  /** The zero Order{}: empty identifier, zero status, no uncommitted events. */
  const ZeroOrder := OrderValue("", StatusPlaced, [])

  /** What `apply` does to an order: take the identifier from the event, set
      the status by the event's variant, and buffer the event when it is new. */
  function Applied(o: OrderValue, e: Event, isNew: bool): OrderValue
  {
    OrderValue(e.orderId, StatusAfter(e), if isNew then o.uncommitted + [e] else o.uncommitted)
  }

  /** Replay of a history: a left fold of `apply` with isNew off. */
  function Replay(o: OrderValue, es: seq<Event>): (r: OrderValue)
    ensures r.uncommitted == o.uncommitted
    ensures es == [] ==> r == o
    ensures es != [] ==> r.id == Last(es).orderId && r.status == StatusAfter(Last(es))
    decreases es
  {
    if es == [] then o else Replay(Applied(o, es[0], false), es[1..])
  }

  /** Replaying a concatenation is replaying the second part from the state
      the first part left. */
  lemma {:induction false} ReplayConcat(o: OrderValue, es1: seq<Event>, es2: seq<Event>)
    ensures Replay(o, es1 + es2) == Replay(Replay(o, es1), es2)
    decreases es1
  {
    if es1 == [] {
      assert es1 + es2 == es2;
    } else {
      assert (es1 + es2)[0] == es1[0];
      assert (es1 + es2)[1..] == es1[1..] + es2;
      ReplayConcat(Applied(o, es1[0], false), es1[1..], es2);
    }
  }

  /** Every buffered event belongs to the order, and when the buffer is not
      empty the status is the one its last event set. */
  ghost predicate Coherent(o: OrderValue)
  {
    (forall e :: e in o.uncommitted ==> e.orderId == o.id) &&
    (o.uncommitted != [] ==> o.status == StatusAfter(Last(o.uncommitted)))
  }

  datatype PlaceOutcome = PlaceOutcome(order: OrderValue, err: Option<OrderError>)

  /** What Order.Place does, as written: an empty identifier is reported as
      already placed, no lines as an empty order line, and otherwise a Placed
      event carrying the order's own identifier is applied as new. */
  function PlaceOn(o: OrderValue, lines: seq<Line>): (r: PlaceOutcome)
    ensures o.id == "" ==> r.err == Some(AlreadyPlaced) && r.order == o
    ensures o.id != "" && lines == [] ==> r.err == Some(EmptyOrderLine) && r.order == o
    ensures r.err == None <==> o.id != "" && lines != []
    ensures r.err == None ==>
      r.order == OrderValue(o.id, StatusPlaced, o.uncommitted + [Placed(o.id)])
    ensures r.order.id == o.id
    ensures Coherent(o) ==> Coherent(r.order)
  {
    if o.id == "" then PlaceOutcome(o, Some(AlreadyPlaced))
    else if |lines| == 0 then PlaceOutcome(o, Some(EmptyOrderLine))
    else PlaceOutcome(Applied(o, Placed(o.id), true), None)
  }

  /** What Order.Activate does: an order whose status is StatusPlaced (the zero
      status included) gets an Activated event carrying its own identifier;
      any other order is left as it is. */
  function ActivateOn(o: OrderValue): (r: OrderValue)
    ensures o.status == StatusPlaced ==>
      r == OrderValue(o.id, StatusActivated, o.uncommitted + [Activated(o.id)])
    ensures o.status != StatusPlaced ==> r == o
    ensures r.id == o.id && r.status == StatusActivated
    ensures Coherent(o) ==> Coherent(r)
  {
    match o.status
    case StatusPlaced => Applied(o, Activated(o.id), true)
    case StatusActivated => o
  }

  /** A second activation adds no event and changes nothing. */
  lemma ActivateIdempotent(o: OrderValue)
    ensures ActivateOn(ActivateOn(o)) == ActivateOn(o)
  {
  }

  /** Activating the zero order is not a no-op: it buffers an Activated event
      with an empty identifier. */
  lemma ActivateZeroFires()
    ensures ActivateOn(ZeroOrder) == OrderValue("", StatusActivated, [Activated("")])
  {
  }

  /** Replaying the events an order generated, from the zero order, gives back
      that order's identifier and status with an empty buffer. */
  lemma ReplayGenerated(o: OrderValue)
    requires Coherent(o) && o.uncommitted != []
    ensures Replay(ZeroOrder, o.uncommitted) == OrderValue(o.id, o.status, [])
  {
    assert Last(o.uncommitted) in o.uncommitted;
  }

  /** The Order aggregate root. Its fields change only through Apply. */
  class Order {
    var id: string
    var status: Status
    var uncommitted: seq<Event>

    function Value(): OrderValue
      reads this
    {
      OrderValue(id, status, uncommitted)
    }

    /** An order literal with the given identifier and every other field at
        its zero value; Init("") is the zero Order{}. */
    constructor Init(id: string)
      ensures Value() == OrderValue(id, StatusPlaced, [])
    {
      this.id := id;
      status := StatusPlaced;
      uncommitted := [];
    }

    /** `handle`: set the status by the event's variant. */
    method Handle(e: Event)
      modifies this`status
      ensures status == StatusAfter(e)
    {
      match e
      case Activated(_) => status := StatusActivated;
      case Placed(_) => status := StatusPlaced;
    }

    /** `apply`: the one routine through which events change an order. */
    method Apply(e: Event, isNew: bool)
      modifies this
      ensures Value() == Applied(old(Value()), e, isNew)
    {
      id := e.orderId;
      Handle(e);
      if isNew {
        uncommitted := uncommitted + [e];
      }
    }

    method Place(lines: seq<Line>) returns (err: Option<OrderError>)
      modifies this
      ensures Value() == PlaceOn(old(Value()), lines).order
      ensures err == PlaceOn(old(Value()), lines).err
    {
      if id == "" {
        return Some(AlreadyPlaced);
      }
      if |lines| == 0 {
        return Some(EmptyOrderLine);
      }
      Apply(Placed(id), true);
      return None;
    }

    method Activate()
      modifies this
      ensures Value() == ActivateOn(old(Value()))
    {
      if status == StatusPlaced {
        Apply(Activated(id), true);
      }
    }
  }

  /** `loadFromHistory`: apply each event, in order, to a zero order. */
  method LoadFromHistory(es: seq<Event>) returns (o: Order)
    ensures fresh(o)
    ensures o.Value() == Replay(ZeroOrder, es)
  {
    o := new Order.Init("");
    var i := 0;
    while i < |es|
      invariant 0 <= i <= |es|
      invariant o.Value() == Replay(ZeroOrder, es[..i])
    {
      ReplayConcat(ZeroOrder, es[..i], [es[i]]);
      assert es[..i + 1] == es[..i] + [es[i]];
      o.Apply(es[i], false);
      i := i + 1;
    }
    assert es[..i] == es;
  }
}
