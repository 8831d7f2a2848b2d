/** The observer mechanism of pso.py: an `EventEmitter` keeps an ordered list
    of listeners and calls each of them, in registration order, with the
    keyword arguments of every `emit`. Listeners are arbitrary Python
    callables; here a listener is an opaque handle and a call is recorded in a
    ghost log instead of being run. */
module PsoEvents {
  import opened Vectors

  /** A registered callback, identified by a handle. */
  type Listener = nat

  /** The two kinds of keyword-argument bundles the optimiser emits
      (pso.py:125-126 and pso.py:132-133). `n` is the particle index,
      `y` the objective value at `x`, `steps` the optimiser's step counter. */
  datatype Event =
    | UpdateParticle(n: nat, x: Vector, v: Vector, y: real, steps: nat)
    | UpdateBest(n: nat, x: Vector, y: real, steps: nat)

  /** One invocation `listener(**kwargs)`. */
  datatype Call = Call(listener: Listener, event: Event)

  /** The calls one `emit(e)` makes: every listener once, in list order. */
  function Deliver(ls: seq<Listener>, e: Event): (r: seq<Call>)
    ensures |r| == |ls|
    ensures forall j :: 0 <= j < |ls| ==> r[j] == Call(ls[j], e)
  {
    seq(|ls|, j requires 0 <= j < |ls| => Call(ls[j], e))
  }

  /** The calls made by emitting every event of `es` in turn. */
  function Broadcast(ls: seq<Listener>, es: seq<Event>): (r: seq<Call>)
    decreases |es|
  {
    if es == [] then [] else Broadcast(ls, es[..|es| - 1]) + Deliver(ls, es[|es| - 1])
  }

  /** Emitting one more event adds exactly that event's calls. */
  lemma BroadcastSnoc(ls: seq<Listener>, es: seq<Event>, e: Event)
    ensures Broadcast(ls, es + [e]) == Broadcast(ls, es) + Deliver(ls, e)
  {
    assert (es + [e])[..|es|] == es;
  }

  /** A log that grew by the calls of `a` and then those of `b` grew by
      the calls of `a + b`. */
  lemma CallsAppend(log: seq<Call>, log0: seq<Call>, ls: seq<Listener>, a: seq<Event>, b: seq<Event>)
    requires log == log0 + Broadcast(ls, a) + Broadcast(ls, b)
    ensures log == log0 + Broadcast(ls, a + b)
  {
    BroadcastAppend(ls, a, b);
  }

  /** A log that grew by `a` and then by `b` grew by `a + b`. */
  lemma EventsAppend(log: seq<Event>, log0: seq<Event>, a: seq<Event>, b: seq<Event>)
    requires log == log0 + a + b
    ensures log == log0 + (a + b)
  {
  }

  /** A log that grew by the calls of `e` and then those of `rest` grew by
      the calls of `[e] + rest`. */
  lemma CallsPrepend(log: seq<Call>, log0: seq<Call>, ls: seq<Listener>, e: Event, rest: seq<Event>)
    requires log == log0 + Deliver(ls, e) + Broadcast(ls, rest)
    ensures log == log0 + Broadcast(ls, [e] + rest)
  {
    BroadcastSnoc(ls, [], e);
    assert [] + [e] == [e];
    CallsAppend(log, log0, ls, [e], rest);
  }

  /** Emitting `a` and then `b` makes the calls of `a` and then those of `b`. */
  lemma {:induction false} BroadcastAppend(ls: seq<Listener>, a: seq<Event>, b: seq<Event>)
    ensures Broadcast(ls, a + b) == Broadcast(ls, a) + Broadcast(ls, b)
    decreases |b|
  {
    if b == [] {
      assert a + b == a;
    } else {
      var b' := b[..|b| - 1];
      assert (a + b)[..|a + b| - 1] == a + b';
      assert (a + b)[|a + b| - 1] == b[|b| - 1];
      BroadcastAppend(ls, a, b');
    }
  }

  /** Emitting a sequence of events makes, for event `i`, one block of
      calls, every listener once in list order, right after the calls of the
      events before it; so call number `|Broadcast(ls, es[..i])| + j` (which is
      `i * |ls| + j` by `BroadcastLength`) is listener `j` receiving event `i`. */
  lemma BroadcastAt(ls: seq<Listener>, es: seq<Event>, i: nat, j: nat)
    requires i < |es| && j < |ls|
    ensures Broadcast(ls, es) == Broadcast(ls, es[..i]) + Deliver(ls, es[i]) + Broadcast(ls, es[i + 1..])
    ensures Broadcast(ls, es)[|Broadcast(ls, es[..i])| + j] == Call(ls[j], es[i])
  {
    assert es == es[..i] + [es[i]] + es[i + 1..];
    BroadcastSplit(ls, es[..i], es[i], es[i + 1..]);
  }

  lemma BroadcastSplit(ls: seq<Listener>, before: seq<Event>, e: Event, after: seq<Event>)
    ensures Broadcast(ls, before + [e] + after) == Broadcast(ls, before) + Deliver(ls, e) + Broadcast(ls, after)
  {
    BroadcastSnoc(ls, before, e);
    BroadcastAppend(ls, before + [e], after);
  }

  /** The number of calls is the number of events times the number of listeners. */
  lemma {:induction false} BroadcastLength(ls: seq<Listener>, es: seq<Event>)
    ensures |Broadcast(ls, es)| == |es| * |ls|
    decreases |es|
  {
    if es != [] {
      BroadcastLength(ls, es[..|es| - 1]);
      assert |es| * |ls| == (|es| - 1) * |ls| + |ls|;
    }
  }

  class EventEmitter {
    /** `self.listeners`, in registration order. */
    var listeners: seq<Listener>
    /** Every keyword-argument bundle passed to `emit`, in order. */
    ghost var emitted: seq<Event>
    /** Every listener invocation made by `emit`, in order. */
    ghost var calls: seq<Call>

    constructor ()
      ensures listeners == [] && emitted == [] && calls == []
    {
      listeners := [];
      emitted := [];
      calls := [];
    }

    /** `listen(f)`: register `f` after the listeners already present. */
    method Listen(l: Listener)
      modifies this
      ensures listeners == old(listeners) + [l]
      ensures emitted == old(emitted) && calls == old(calls)
    {
      listeners := listeners + [l];
    }

    /** `emit(**kwargs)`: call every listener once, in registration order,
        with the same arguments. */
    method Emit(e: Event)
      modifies this
      ensures listeners == old(listeners)
      ensures emitted == old(emitted) + [e]
      ensures calls == old(calls) + Deliver(listeners, e)
    {
      emitted := emitted + [e];
      var i := 0;
      while i < |listeners|
        invariant 0 <= i <= |listeners|
        invariant listeners == old(listeners) && emitted == old(emitted) + [e]
        invariant calls == old(calls) + Deliver(listeners[..i], e)
      {
        assert Deliver(listeners[..i + 1], e) == Deliver(listeners[..i], e) + [Call(listeners[i], e)];
        calls := calls + [Call(listeners[i], e)];
        i := i + 1;
      }
      assert listeners[..i] == listeners;
    }
  }
}
