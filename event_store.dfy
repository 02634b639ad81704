/** The in-memory event store: one flat, append-only log of events, filtered
    by order identifier on load. */
module EventStorage {
  import opened Events

  /** The events of `es` that belong to order `id`, in their order in `es`. */
  function Filter(es: seq<Event>, id: string): (r: seq<Event>)
    ensures forall e :: e in r ==> e in es && e.orderId == id
    ensures forall e :: e in es && e.orderId == id ==> e in r
    ensures |r| <= |es|
  {
    if es == [] then []
    else if es[0].orderId == id then [es[0]] + Filter(es[1..], id)
    else Filter(es[1..], id)
  }

  /** Filtering distributes over concatenation, so the relative order of the
      kept events is the order in which they were stored. */
  lemma {:induction false} FilterConcat(es1: seq<Event>, es2: seq<Event>, id: string)
    ensures Filter(es1 + es2, id) == Filter(es1, id) + Filter(es2, id)
  {
    if es1 == [] {
      assert es1 + es2 == es2;
    } else {
      assert (es1 + es2)[0] == es1[0];
      assert (es1 + es2)[1..] == es1[1..] + es2;
      FilterConcat(es1[1..], es2, id);
    }
  }

  /** Filtering a log with one more event at its end. */
  lemma FilterSnoc(es: seq<Event>, e: Event, id: string)
    ensures Filter(es + [e], id) == if e.orderId == id then Filter(es, id) + [e] else Filter(es, id)
  {
    FilterConcat(es, [e], id);
    assert [e][1..] == [];
  }

  /** A sequence whose events all belong to `id` passes the filter whole. */
  lemma {:induction false} FilterKeepsOwn(es: seq<Event>, id: string)
    requires forall e :: e in es ==> e.orderId == id
    ensures Filter(es, id) == es
  {
    if es != [] {
      assert es[0] in es;
      FilterKeepsOwn(es[1..], id);
    }
  }

  /** The events of other orders never reach the filter's result. */
  lemma {:induction false} FilterDropsOthers(es: seq<Event>, id: string)
    requires forall e :: e in es ==> e.orderId != id
    ensures Filter(es, id) == []
  {
    if es != [] {
      assert es[0] in es;
      FilterDropsOthers(es[1..], id);
    }
  }

  class EventStore {
    var events: seq<Event>

    constructor ()
      ensures events == []
    {
      events := [];
    }

    /** Append `evs` to the log; the identifier is not used. */
    method Save(id: string, evs: seq<Event>)
      modifies this
      ensures events == old(events) + evs
    {
      events := events + evs;
    }

    /** The stored events of order `id` in stored order, or OrderNotFound
        exactly when there are none. */
    method Load(id: string) returns (r: Result<seq<Event>, StoreError>)
      ensures Filter(events, id) == [] <==> r == Failure(OrderNotFound)
      ensures Filter(events, id) != [] ==> r == Success(Filter(events, id))
    {
      var result: seq<Event> := [];
      var i := 0;
      while i < |events|
        invariant 0 <= i <= |events|
        invariant result == Filter(events[..i], id)
      {
        var e := events[i];
        assert events[..i + 1] == events[..i] + [e];
        FilterSnoc(events[..i], e, id);
        if e.orderId == id {
          result := result + [e];
        }
        i := i + 1;
      }
      assert events[..i] == events;
      if |result| == 0 {
        return Failure(OrderNotFound);
      }
      return Success(result);
    }
  }
}
