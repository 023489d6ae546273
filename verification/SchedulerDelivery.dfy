/** The link between the two histories of the scheduler: handled events and handler calls. */
module SchedulerDelivery {

  import opened Common
  import opened Scheduler
  import opened SchedulerInvariant

  /** A delivery: the registration called, what it was told, and for whose event. */
  datatype Delivery = Delivery(reg: nat, ready: nat, origin: nat)

  /** The deliveries among the handled events of one level. */
  function Delivered(h: seq<Handled>): seq<Delivery> {
    if h == [] then [] else
      var last := h[|h| - 1];
      Delivered(h[..|h| - 1]) +
      if last.target.Some? then [Delivery(last.target.value, last.event.ready, last.event.origin)] else []
  }

  /** The handler calls that were made for one level. */
  function CallsFor(calls: seq<Call>, level: nat): seq<Delivery> {
    if calls == [] then [] else
      var last := calls[|calls| - 1];
      CallsFor(calls[..|calls| - 1], level) +
      if last.level == level then [Delivery(last.reg, last.ready, last.origin)] else []
  }

  /** Level by level, the handler calls are the delivered events, in order. */
  ghost predicate DeliveryInv(s: Scheduler)
    requires Shape(s)
  {
    forall l :: 0 <= l < LEVELS ==> CallsFor(s.calls, l) == Delivered(s.handled[l])
  }

  lemma {:induction false} DeliveredConcat(a: seq<Handled>, b: seq<Handled>)
    ensures Delivered(a + b) == Delivered(a) + Delivered(b)
  {
    if b == [] {
      assert a + b == a;
    } else {
      var n := |b| - 1;
      assert (a + b)[..|a| + n] == a + b[..n];
      DeliveredConcat(a, b[..n]);
    }
  }

  lemma {:induction false} CallsForConcat(a: seq<Call>, b: seq<Call>, level: nat)
    ensures CallsFor(a + b, level) == CallsFor(a, level) + CallsFor(b, level)
  {
    if b == [] {
      assert a + b == a;
    } else {
      var n := |b| - 1;
      assert (a + b)[..|a| + n] == a + b[..n];
      CallsForConcat(a, b[..n], level);
    }
  }

  /** Draining a queue makes the calls of the events it delivers, all for that level. */
  lemma {:induction false} DrainDelivers(entries: map<nat, Entry>, level: nat, q: seq<QueueEvent>, l: nat)
    ensures CallsFor(Deliver(entries, level, q), l) == if l == level then Delivered(Dispose(entries, q)) else []
  {
    if q != [] {
      var n := |q| - 1;
      DrainDelivers(entries, level, q[..n], l);
      var before := Deliver(entries, level, q[..n]);
      CallsForConcat(before, Deliver(entries, level, q)[|before|..], l);
      DeliveredConcat(Dispose(entries, q[..n]), Dispose(entries, q)[|Dispose(entries, q[..n])|..]);
    }
  }

  lemma {:induction false} DeadNotDelivered(entries: map<nat, Entry>, q: seq<QueueEvent>)
    requires !Live(entries, q)
    ensures Delivered(Dispose(entries, q)) == []
  {
    if q != [] {
      var n := |q| - 1;
      assert q[n].token !in entries;
      assert forall i :: 0 <= i < n ==> q[..n][i] == q[i];
      DeadNotDelivered(entries, q[..n]);
      DeliveredConcat(Dispose(entries, q[..n]), Dispose(entries, q)[|Dispose(entries, q[..n])|..]);
    }
  }

  lemma ServedLevelDelivers(a: Scheduler, r: Scheduler, t: nat, l: nat)
    requires Shape(a) && Shape(r) && t < LEVELS && l < LEVELS
    requires StopsAt(a, LEVELS, t) && ServedFrom(a, r, LEVELS, t)
    requires CallsFor(a.calls, l) == Delivered(a.handled[l])
    ensures CallsFor(r.calls, l) == Delivered(r.handled[l])
  {
    CallsForConcat(a.calls, Deliver(a.entries, t, a.queues[t]), l);
    DrainDelivers(a.entries, t, a.queues[t], l);
    DeliveredConcat(a.handled[l], Dispose(a.entries, a.queues[l]));
    if t < l {
      DeadNotDelivered(a.entries, a.queues[l]);
      assert Delivered(a.handled[l]) + [] == Delivered(a.handled[l]);
    } else if l < t {
      assert a.handled[l] + [] == a.handled[l];
      assert CallsFor(a.calls, l) + [] == CallsFor(a.calls, l);
    }
  }

  lemma PollDelivers(s: Scheduler, evs: seq<Event>)
    requires Shape(s) && DeliveryInv(s)
    ensures DeliveryInv(PollStep(s, evs))
  {
    hide PollStep, ServedFrom, StopsAt, CallsFor, Delivered;
    var t := PollServesHighestLiveLevel(s, evs);
    forall l | 0 <= l < LEVELS
      ensures CallsFor(PollStep(s, evs).calls, l) == Delivered(PollStep(s, evs).handled[l])
    {
      ServedLevelDelivers(Accept(s, evs), PollStep(s, evs), t, l);
    }
  }

  /** On every run the handler calls for a level are exactly the accepted events of that level that
      were delivered, in the order they were accepted. */
  lemma {:induction false} RunDelivers(s: Scheduler, ops: seq<Op>)
    requires Shape(s) && DeliveryInv(s) && AllowedRun(s, ops)
    ensures DeliveryInv(Run(s, ops))
    decreases ops
  {
    if ops != [] {
      if ops[0].Poll? && ops[0].events.Some? {
        PollDelivers(s, ops[0].events.value);
      }
      RunDelivers(Step(s, ops[0]), ops[1..]);
    }
  }

  lemma StartDelivers(wakerPri: nat)
    ensures DeliveryInv(Start(wakerPri))
  {
  }
}
