/**
 * Listener registrations of the distributed cache facade and the order in
 * which events reach them.
 *
 * A listener is identified by its object identity and implements any of the
 * read, updated, removed and expired listener interfaces.  A registration
 * wraps a listener with its filter; an event reaches the listener only when
 * the filter accepts it, and events go to registrations in the order in
 * which they were made.
 */
module CacheListeners {
  import opened Wrappers
  import opened CacheStore

  /** A listener object: its identity and the listener interfaces it implements. */
  datatype Listener = Listener(id: nat, isRead: bool, isUpdated: bool, isRemoved: bool, isExpired: bool)

  /** An event carries the key and the value (`None` for a removal or a miss). */
  datatype Event = Event(key: Key, value: Option<Value>)

  /** The filter given at registration, evaluated once per listener per event. */
  type Filter = Event -> bool

  datatype Registration = Registration(listener: Listener, filter: Filter)

  datatype EventKind = ReadEvent | UpdatedEvent | RemovedEvent

  /** One call of a listener's callback. */
  datatype Delivery = Delivery(listener: Listener, kind: EventKind, event: Event)

  /** The delivery, if any, that one registration makes of an event. */
  function DeliverTo(r: Registration, kind: EventKind, ev: Event): seq<Delivery>
  {
    if r.filter(ev) then [Delivery(r.listener, kind, ev)] else []
  }

  /** The deliveries of one event to a registry, in registration order. */
  function Dispatch(regs: seq<Registration>, kind: EventKind, ev: Event): (ds: seq<Delivery>)
    ensures |ds| <= |regs|
  {
    if regs == [] then []
    else Dispatch(regs[..|regs| - 1], kind, ev) + DeliverTo(regs[|regs| - 1], kind, ev)
  }

  /** Dispatching to two registries in a row is dispatching to their concatenation. */
  lemma {:induction false} DispatchConcat(a: seq<Registration>, b: seq<Registration>, kind: EventKind, ev: Event)
    ensures Dispatch(a + b, kind, ev) == Dispatch(a, kind, ev) + Dispatch(b, kind, ev)
    decreases |b|
  {
    if b == [] {
      assert a + b == a;
    } else {
      var b' := b[..|b| - 1];
      var last := DeliverTo(b[|b| - 1], kind, ev);
      assert (a + b)[..|a + b| - 1] == a + b';
      assert (a + b)[|a + b| - 1] == b[|b| - 1];
      DispatchConcat(a, b', kind, ev);
      assert (Dispatch(a, kind, ev) + Dispatch(b', kind, ev)) + last ==
             Dispatch(a, kind, ev) + (Dispatch(b', kind, ev) + last);
    }
  }

  /**
   * A listener is called for an event exactly when some registration of it
   * has a filter that accepts the event.
   */
  lemma {:induction false} DispatchMembership(regs: seq<Registration>, kind: EventKind, ev: Event, d: Delivery)
    ensures d in Dispatch(regs, kind, ev) <==>
      d.kind == kind && d.event == ev &&
      exists i :: 0 <= i < |regs| && regs[i].listener == d.listener && regs[i].filter(ev)
    decreases |regs|
  {
    if regs != [] {
      var front := regs[..|regs| - 1];
      DispatchMembership(front, kind, ev, d);
      if d.kind == kind && d.event == ev {
        if exists i :: 0 <= i < |regs| && regs[i].listener == d.listener && regs[i].filter(ev) {
          var i :| 0 <= i < |regs| && regs[i].listener == d.listener && regs[i].filter(ev);
          if i < |front| {
            assert front[i] == regs[i];
          }
        }
        if d in Dispatch(front, kind, ev) {
          var i :| 0 <= i < |front| && front[i].listener == d.listener && front[i].filter(ev);
          assert regs[i] == front[i];
        }
      }
    }
  }

  /** When every filter accepts, each registration is called once, in registration order. */
  lemma {:induction false} DispatchAllAccepting(regs: seq<Registration>, kind: EventKind, ev: Event)
    requires forall i :: 0 <= i < |regs| ==> regs[i].filter(ev)
    ensures |Dispatch(regs, kind, ev)| == |regs|
    ensures forall i :: 0 <= i < |regs| ==> Dispatch(regs, kind, ev)[i] == Delivery(regs[i].listener, kind, ev)
    decreases |regs|
  {
    if regs != [] {
      var front := regs[..|regs| - 1];
      assert forall i :: 0 <= i < |front| ==> front[i] == regs[i];
      DispatchAllAccepting(front, kind, ev);
    }
  }

  /** True when some registration in `regs` wraps listener `l`. */
  predicate Registered(regs: seq<Registration>, l: Listener)
  {
    exists i :: 0 <= i < |regs| && regs[i].listener == l
  }

  /** The registry without its first registration of `l`, if there is one. */
  function RemoveFirst(regs: seq<Registration>, l: Listener): (r: seq<Registration>)
    ensures |r| == if Registered(regs, l) then |regs| - 1 else |regs|
  {
    if regs == [] then []
    else if regs[0].listener == l then regs[1..]
    else [regs[0]] + RemoveFirst(regs[1..], l)
  }

  /** Removing at the first match keeps the registrations before and after it, in order. */
  lemma {:induction false} RemoveFirstAt(regs: seq<Registration>, l: Listener, idx: nat)
    requires idx < |regs| && regs[idx].listener == l
    requires forall i :: 0 <= i < idx ==> regs[i].listener != l
    ensures RemoveFirst(regs, l) == regs[..idx] + regs[idx + 1..]
    decreases idx
  {
    if idx > 0 {
      RemoveFirstAt(regs[1..], l, idx - 1);
      assert regs[1..][..idx - 1] == regs[1..idx];
      assert regs[1..][idx..] == regs[idx + 1..];
      assert [regs[0]] + regs[1..idx] == regs[..idx];
    }
  }

  /** Without a registration of `l`, removal leaves the registry unchanged. */
  lemma {:induction false} RemoveFirstAbsent(regs: seq<Registration>, l: Listener)
    requires !Registered(regs, l)
    ensures RemoveFirst(regs, l) == regs
    decreases |regs|
  {
    if regs != [] {
      assert regs[0].listener != l;
      assert !Registered(regs[1..], l) by {
        forall i | 0 <= i < |regs[1..]| ensures regs[1..][i].listener != l {
          assert regs[1..][i] == regs[i + 1];
        }
      }
      RemoveFirstAbsent(regs[1..], l);
      assert [regs[0]] + regs[1..] == regs;
    }
  }

  /** The index of the first registration of `l`, or -1 (the search loop of `unregister`). */
  method FindMatch(regs: seq<Registration>, l: Listener) returns (idx: int)
    ensures -1 <= idx < |regs|
    ensures idx == -1 <==> !Registered(regs, l)
    ensures idx >= 0 ==> regs[idx].listener == l && forall i :: 0 <= i < idx ==> regs[i].listener != l
  {
    var i := 0;
    while i < |regs|
      invariant 0 <= i <= |regs|
      invariant forall j :: 0 <= j < i ==> regs[j].listener != l
    {
      if regs[i].listener == l {
        return i;
      }
      i := i + 1;
    }
    return -1;
  }

  /**
   * `unregister(listeners, listener)`: removes the first registration of the
   * listener and reports whether there was one.
   */
  method Unregister(regs: seq<Registration>, l: Listener) returns (rest: seq<Registration>, found: bool)
    ensures found <==> Registered(regs, l)
    ensures rest == RemoveFirst(regs, l)
    ensures |rest| == if found then |regs| - 1 else |regs|
  {
    var idx := FindMatch(regs, l);
    if idx < 0 {
      RemoveFirstAbsent(regs, l);
      return regs, false;
    }
    RemoveFirstAt(regs, l, idx);
    return regs[..idx] + regs[idx + 1..], true;
  }
}
