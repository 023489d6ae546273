/**
 What holds in every reachable state of the scheduler: conservation and order of the
 accepted events, safety of registrations, and the bounds that let the implementation
 keep ten queues only.
 */
module SchedulerInvariant {

  import opened Common
  import opened Scheduler

  // ---------------------------------------------------------------- closed form of a poll

  ghost predicate Live(entries: map<nat, Entry>, q: seq<QueueEvent>) {
    exists i :: 0 <= i < |q| && q[i].token in entries
  }

  lemma {:induction false} DeliverLive(entries: map<nat, Entry>, level: nat, q: seq<QueueEvent>)
    ensures Deliver(entries, level, q) != [] <==> Live(entries, q)
  {
    if q != [] {
      var n := |q| - 1;
      DeliverLive(entries, level, q[..n]);
      assert forall i :: 0 <= i < n ==> q[..n][i] == q[i];
      if Live(entries, q) && q[n].token !in entries {
        var i :| 0 <= i < |q| && q[i].token in entries;
        assert q[..n][i].token in entries;
      }
    }
  }

  /** `t` is the level at which draining from `top` downwards stops. */
  ghost predicate StopsAt(s: Scheduler, top: nat, t: nat)
    requires Shape(s) && top <= LEVELS
  {
    && t < top
    && (forall l :: t < l < top ==> !Live(s.entries, s.queues[l]))
    && (t == 0 || Live(s.entries, s.queues[t]))
  }

  lemma {:induction false} StopExists(s: Scheduler, top: nat) returns (t: nat)
    requires Shape(s) && 0 < top <= LEVELS
    ensures StopsAt(s, top, t)
  {
    t := top - 1;
    if t != 0 && !Live(s.entries, s.queues[t]) {
      t := StopExists(s, top - 1);
    }
  }

  /** The levels from `t` up to `top` were emptied, every event in them accounted for, and the
      handler calls are those of level `t`; all else is as before. */
  ghost predicate ServedFrom(s: Scheduler, r: Scheduler, top: nat, t: nat)
    requires Shape(s) && Shape(r) && t < LEVELS
  {
    && r == s.(queues := r.queues, handled := r.handled, calls := r.calls)
    && (forall l :: 0 <= l < LEVELS ==>
          r.queues[l] == if t <= l < top then [] else s.queues[l])
    && (forall l :: 0 <= l < LEVELS ==>
          r.handled[l] == s.handled[l] + if t <= l < top then Dispose(s.entries, s.queues[l]) else [])
    && r.calls == s.calls + Deliver(s.entries, t, s.queues[t])
  }

  /** Draining a level that holds nothing live, then serving from below it. */
  lemma ServeBelow(s: Scheduler, r: Scheduler, top: nat, t: nat)
    requires Shape(s) && Shape(r) && t < top < LEVELS
    requires Deliver(s.entries, top, s.queues[top]) == []
    requires ServedFrom(Drain(s, top), r, top, t)
    ensures ServedFrom(s, r, top + 1, t)
  {
    var d := Drain(s, top);
    assert d.calls == s.calls;
    assert r == s.(queues := r.queues, handled := r.handled, calls := r.calls);
    forall l | 0 <= l < LEVELS
      ensures r.queues[l] == if t <= l < top + 1 then [] else s.queues[l]
      ensures r.handled[l] == s.handled[l] + if t <= l < top + 1 then Dispose(s.entries, s.queues[l]) else []
    {
      assert l == top || d.queues[l] == s.queues[l];
    }
  }

  lemma {:induction false} ServeClosedForm(s: Scheduler, top: nat, t: nat)
    requires Shape(s) && 0 < top <= LEVELS && StopsAt(s, top, t)
    ensures ServedFrom(s, Serve(s, top), top, t)
    decreases top
  {
    var l := top - 1;
    DeliverLive(s.entries, l, s.queues[l]);
    if t < l {
      var d := Drain(s, l);
      ServeClosedForm(d, l, t);
      ServeBelow(s, Serve(d, l), l, t);
    } else {
      assert Serve(s, top) == Drain(s, t);
    }
  }

  /** A poll serves one level: the highest that holds an event for a registered token.  The
      levels above it held none, so their events are discarded. */
  lemma PollServesHighestLiveLevel(s: Scheduler, evs: seq<Event>) returns (t: nat)
    requires Shape(s)
    ensures t < LEVELS
    ensures StopsAt(Accept(s, evs), LEVELS, t)
    ensures ServedFrom(Accept(s, evs), PollStep(s, evs), LEVELS, t)
    ensures |PollStep(s, evs).calls| > |s.calls| <==> Live(s.entries, Accept(s, evs).queues[t])
  {
    t := StopExists(Accept(s, evs), LEVELS);
    ServeClosedForm(Accept(s, evs), LEVELS, t);
    DeliverLive(s.entries, t, Accept(s, evs).queues[t]);
  }

  // ---------------------------------------------------------------- the invariant

  /** The registration has left the slab for good. */
  ghost predicate Gone(s: Scheduler, reg: nat) {
    reg < s.nextReg && forall t :: t in s.entries ==> s.entries[t].reg != reg
  }

  ghost predicate RegistrationsInv(s: Scheduler) {
    && WAKER_TOKEN in s.entries
    && NotFound !in s.errors
    && |s.slots| == s.nextReg
    && (forall t :: t in s.entries ==> s.entries[t].reg < s.nextReg && s.slots[s.entries[t].reg] == t)
    && (forall l :: l in s.levels ==> l < LEVELS)
    && (forall t :: t in s.entries ==> s.entries[t].pri in s.levels)
    && (forall t, u :: t in s.entries && u in s.entries && s.entries[t].reg == s.entries[u].reg ==> t == u)
    && (forall reg :: reg in s.sources ==>
          && s.sources[reg] != WAKER_TOKEN
          && s.sources[reg] in s.entries
          && s.entries[s.sources[reg]].reg == reg)
  }

  /** An event queued at `level`: if the registration it was meant for is still there, it is the
      one its token leads to and its priority is `level`; otherwise only a later one can be. */
  ghost predicate EventInv(s: Scheduler, level: nat, e: QueueEvent) {
    && e.origin < s.nextReg == |s.slots| && s.slots[e.origin] == e.token
    && (forall t :: t in s.entries && s.entries[t].reg == e.origin ==> t == e.token && s.entries[t].pri == level)
    && (e.token in s.entries ==> e.origin <= s.entries[e.token].reg)
  }

  ghost predicate EventsInv(s: Scheduler)
    requires Shape(s)
  {
    forall l, i :: 0 <= l < LEVELS && 0 <= i < |s.queues[l]| ==> EventInv(s, l, s.queues[l][i])
  }

  /** Only levels below the highest one in use ever hold events between polls. */
  ghost predicate TopEmpty(s: Scheduler)
    requires Shape(s)
  {
    forall l :: 0 <= l < LEVELS && s.queues[l] != [] ==> l in s.levels && exists m :: m in s.levels && l < m
  }

  /** A handler was called for its own event at its own priority, or for the event of an earlier
      registration that has left its slot. */
  ghost predicate CallInv(s: Scheduler, c: Call) {
    && c.reg < s.nextReg == |s.slots| && c.origin < s.nextReg
    && s.slots[c.reg] == s.slots[c.origin] == c.token
    && (c.origin == c.reg ==> c.pri == c.level)
    && (c.origin != c.reg ==> c.origin < c.reg && Gone(s, c.origin))
  }

  ghost predicate CallsInv(s: Scheduler) {
    forall i :: 0 <= i < |s.calls| ==> CallInv(s, s.calls[i])
  }

  function EventsOf(h: seq<Handled>): seq<QueueEvent> {
    seq(|h|, i requires 0 <= i < |h| => h[i].event)
  }

  /** Conservation and order: at each level the accepted events are the handled ones followed
      by the queued ones. */
  ghost predicate HistoryInv(s: Scheduler)
    requires Shape(s)
  {
    forall l :: 0 <= l < LEVELS ==> s.accepted[l] == EventsOf(s.handled[l]) + s.queues[l]
  }

  ghost predicate Inv(s: Scheduler) {
    Shape(s) && RegistrationsInv(s) && EventsInv(s) && TopEmpty(s) && CallsInv(s) && HistoryInv(s)
  }

  // ---------------------------------------------------------------- steps other than poll

  lemma StartInv(wakerPri: nat)
    ensures Inv(Start(wakerPri))
  {
  }

  /** Putting an entry with a fresh registration into the slab keeps what is known of queued
      events and past calls. */
  lemma PutEntry(s: Scheduler, r: Scheduler, slot: nat, pri: nat)
    requires Shape(s) && RegistrationsInv(s) && EventsInv(s) && CallsInv(s) && Shape(r)
    requires r == s.(entries := s.entries[slot := Entry(pri, s.nextReg)], nextReg := s.nextReg + 1,
                     slots := s.slots + [slot], levels := r.levels, sources := r.sources)
    ensures EventsInv(r) && CallsInv(r)
  {
    forall l, i | 0 <= l < LEVELS && 0 <= i < |r.queues[l]|
      ensures EventInv(r, l, r.queues[l][i])
    {
      assert EventInv(s, l, s.queues[l][i]);
    }
    forall i | 0 <= i < |r.calls|
      ensures CallInv(r, r.calls[i])
    {
      assert CallInv(s, s.calls[i]);
    }
  }

  lemma KeepsQueues(s: Scheduler, r: Scheduler)
    requires Shape(s) && Shape(r) && TopEmpty(s) && HistoryInv(s) && s.levels <= r.levels
    requires r == s.(entries := r.entries, sources := r.sources, errors := r.errors,
                     nextReg := r.nextReg, slots := r.slots, levels := r.levels)
    ensures TopEmpty(r) && HistoryInv(r)
  {
  }

  lemma AddRegistrations(s: Scheduler, pri: nat, slot: nat, registered: bool)
    requires Shape(s) && RegistrationsInv(s) && slot !in s.entries
    ensures RegistrationsInv(AddStep(s, pri, slot, registered))
  {
  }

  lemma AddInv(s: Scheduler, pri: nat, slot: nat, registered: bool)
    requires Inv(s) && slot !in s.entries
    ensures Inv(AddStep(s, pri, slot, registered))
  {
    hide RegistrationsInv, EventsInv, CallsInv, TopEmpty, HistoryInv;
    var r := AddStep(s, pri, slot, registered);
    PutEntry(s, r, slot, Clamp(pri));
    AddRegistrations(s, pri, slot, registered);
    KeepsQueues(s, r);
  }

  /** Removing a slab entry keeps what is known of queued events and past calls. */
  lemma RemoveEntry(s: Scheduler, r: Scheduler, token: nat)
    requires Shape(s) && EventsInv(s) && CallsInv(s) && Shape(r)
    requires r == s.(entries := s.entries - {token}, sources := r.sources, errors := r.errors)
    ensures EventsInv(r) && CallsInv(r)
  {
    forall l, i | 0 <= l < LEVELS && 0 <= i < |r.queues[l]|
      ensures EventInv(r, l, r.queues[l][i])
    {
      assert EventInv(s, l, s.queues[l][i]);
    }
    forall i | 0 <= i < |r.calls|
      ensures CallInv(r, r.calls[i])
    {
      assert CallInv(s, s.calls[i]);
    }
  }

  lemma DropRegistrations(s: Scheduler, reg: nat, deregistered: bool)
    requires Shape(s) && RegistrationsInv(s) && reg in s.sources
    ensures RegistrationsInv(DropStep(s, reg, deregistered))
    ensures Gone(DropStep(s, reg, deregistered), reg)
    ensures s.sources[reg] in s.entries
  {
    var r := DropStep(s, reg, deregistered);
    assert forall k :: k in r.sources ==> k in s.sources && k != reg;
  }

  /** Dropping a live source never reports NotFound, and its registration is gone for good. */
  lemma DropInv(s: Scheduler, reg: nat, deregistered: bool)
    requires Inv(s) && reg in s.sources
    ensures Inv(DropStep(s, reg, deregistered))
    ensures Gone(DropStep(s, reg, deregistered), reg)
    ensures Output(s, DropSource(reg, deregistered)) == Dropped(if deregistered then None else Some(DeregisterFailed))
  {
    hide RegistrationsInv, EventsInv, CallsInv, TopEmpty, HistoryInv, Gone, PollOutput;
    var r := DropStep(s, reg, deregistered);
    RemoveEntry(s, r, s.sources[reg]);
    DropRegistrations(s, reg, deregistered);
    KeepsQueues(s, r);
  }

  lemma SetWakeFwdInv(s: Scheduler)
    requires Inv(s)
    ensures Inv(SetWakeFwdStep(s))
    ensures Gone(SetWakeFwdStep(s), s.entries[WAKER_TOKEN].reg)
  {
    hide EventsInv, CallsInv, TopEmpty, HistoryInv;
    PutEntry(s, SetWakeFwdStep(s), WAKER_TOKEN, s.entries[WAKER_TOKEN].pri);
    KeepsQueues(s, SetWakeFwdStep(s));
  }

  // ---------------------------------------------------------------- the poll step

  /** The events of `evs` that are accepted at `level`, in order. */
  function AtLevel(entries: map<nat, Entry>, evs: seq<Event>, level: nat): seq<QueueEvent> {
    if evs == [] then [] else
      var ev := evs[|evs| - 1];
      AtLevel(entries, evs[..|evs| - 1], level) +
      if ev.token in entries && entries[ev.token].pri == level
      then [QueueEvent(ev.token, ev.ready, entries[ev.token].reg)] else []
  }

  /** Accepting appends to each level the events of that level. */
  lemma {:induction false} AcceptAppends(s: Scheduler, evs: seq<Event>)
    requires Shape(s)
    ensures forall l :: 0 <= l < LEVELS ==>
              && Accept(s, evs).queues[l] == s.queues[l] + AtLevel(s.entries, evs, l)
              && Accept(s, evs).accepted[l] == s.accepted[l] + AtLevel(s.entries, evs, l)
  {
    if evs != [] {
      AcceptAppends(s, evs[..|evs| - 1]);
    }
  }

  lemma {:induction false} AtLevelEvents(entries: map<nat, Entry>, evs: seq<Event>, level: nat)
    ensures forall e :: e in AtLevel(entries, evs, level) ==>
              e.token in entries && entries[e.token].pri == level && e.origin == entries[e.token].reg
  {
    if evs != [] {
      AtLevelEvents(entries, evs[..|evs| - 1], level);
    }
  }

  lemma {:induction false} DisposeEvents(entries: map<nat, Entry>, q: seq<QueueEvent>)
    ensures EventsOf(Dispose(entries, q)) == q
  {
    if q != [] {
      DisposeEvents(entries, q[..|q| - 1]);
      assert q == q[..|q| - 1] + [q[|q| - 1]];
      EventsOfConcat(Dispose(entries, q[..|q| - 1]), Dispose(entries, q)[|q| - 1..]);
    }
  }

  lemma EventsOfConcat(a: seq<Handled>, b: seq<Handled>)
    ensures EventsOf(a + b) == EventsOf(a) + EventsOf(b)
  {
  }

  lemma {:induction false} DeliverCalls(s: Scheduler, level: nat, q: seq<QueueEvent>)
    requires RegistrationsInv(s)
    requires forall i :: 0 <= i < |q| ==> EventInv(s, level, q[i])
    ensures forall c :: c in Deliver(s.entries, level, q) ==>
              CallInv(s, c) && c.level == level && !Gone(s, c.reg)
  {
    if q != [] {
      DeliverCalls(s, level, q[..|q| - 1]);
      assert EventInv(s, level, q[|q| - 1]);
    }
  }

  lemma AcceptInv(s: Scheduler, evs: seq<Event>)
    requires Inv(s)
    ensures var a := Accept(s, evs);
            RegistrationsInv(a) && EventsInv(a) && CallsInv(a) && HistoryInv(a)
    ensures forall l :: 0 <= l < LEVELS && Accept(s, evs).queues[l] != [] ==> l in s.levels
  {
    var a := Accept(s, evs);
    AcceptAppends(s, evs);
    forall l, i | 0 <= l < LEVELS && 0 <= i < |a.queues[l]|
      ensures EventInv(a, l, a.queues[l][i]) && l in s.levels
    {
      var e := a.queues[l][i];
      if i < |s.queues[l]| {
        assert EventInv(s, l, s.queues[l][i]);
      } else {
        AtLevelEvents(s.entries, evs, l);
        assert e in AtLevel(s.entries, evs, l);
      }
    }
    forall l | 0 <= l < LEVELS && a.queues[l] != []
      ensures l in s.levels
    {
      assert EventInv(a, l, a.queues[l][0]);
    }
    forall i | 0 <= i < |a.calls|
      ensures CallInv(a, a.calls[i])
    {
      assert CallInv(s, s.calls[i]);
    }
  }

  lemma ServedHistory(a: Scheduler, r: Scheduler, t: nat)
    requires Shape(a) && Shape(r) && t < LEVELS && ServedFrom(a, r, LEVELS, t) && HistoryInv(a)
    ensures HistoryInv(r)
  {
    forall l | 0 <= l < LEVELS
      ensures r.accepted[l] == EventsOf(r.handled[l]) + r.queues[l]
    {
      if t <= l {
        DisposeEvents(a.entries, a.queues[l]);
        EventsOfConcat(a.handled[l], Dispose(a.entries, a.queues[l]));
      }
    }
  }

  /** Events at the highest level in use are live when accepted, so that level is emptied. */
  lemma ServedTopEmpty(s: Scheduler, evs: seq<Event>, t: nat)
    requires Inv(s) && StopsAt(Accept(s, evs), LEVELS, t)
    requires ServedFrom(Accept(s, evs), PollStep(s, evs), LEVELS, t)
    ensures TopEmpty(PollStep(s, evs))
  {
    var a, r := Accept(s, evs), PollStep(s, evs);
    AcceptInv(s, evs);
    forall l | 0 <= l < LEVELS && r.queues[l] != []
      ensures l in r.levels && exists m :: m in r.levels && l < m
    {
      assert l < t && a.queues[t] != [];
      assert t in s.levels;
    }
  }

  lemma ServedEvents(a: Scheduler, r: Scheduler, t: nat)
    requires Shape(a) && Shape(r) && t < LEVELS && ServedFrom(a, r, LEVELS, t) && EventsInv(a)
    ensures EventsInv(r)
  {
    forall l, i | 0 <= l < LEVELS && 0 <= i < |r.queues[l]|
      ensures EventInv(r, l, r.queues[l][i])
    {
      assert EventInv(a, l, a.queues[l][i]);
    }
  }

  lemma ServedCalls(a: Scheduler, r: Scheduler, t: nat)
    requires Shape(a) && Shape(r) && t < LEVELS && ServedFrom(a, r, LEVELS, t)
    requires RegistrationsInv(a) && EventsInv(a) && CallsInv(a)
    ensures CallsInv(r)
  {
    DeliverCalls(a, t, a.queues[t]);
    hide EventsInv, RegistrationsInv;
    forall i | 0 <= i < |r.calls|
      ensures CallInv(r, r.calls[i])
    {
      if i < |a.calls| {
        assert CallInv(a, a.calls[i]);
      } else {
        assert r.calls[i] in Deliver(a.entries, t, a.queues[t]);
        assert CallInv(a, r.calls[i]);
      }
    }
  }

  lemma ServedRegistrations(a: Scheduler, r: Scheduler, t: nat)
    requires Shape(a) && Shape(r) && t < LEVELS && ServedFrom(a, r, LEVELS, t) && RegistrationsInv(a)
    ensures RegistrationsInv(r)
  {
  }

  lemma PollInv(s: Scheduler, evs: seq<Event>)
    requires Inv(s)
    ensures Inv(PollStep(s, evs))
  {
    hide RegistrationsInv, EventsInv, TopEmpty, CallsInv, HistoryInv, PollStep, Accept, ServedFrom, StopsAt, Live;
    var a, r := Accept(s, evs), PollStep(s, evs);
    var t := PollServesHighestLiveLevel(s, evs);
    AcceptInv(s, evs);
    ServedTopEmpty(s, evs, t);
    ServedHistory(a, r, t);
    ServedEvents(a, r, t);
    ServedCalls(a, r, t);
    ServedRegistrations(a, r, t);
  }

  lemma StepInv(s: Scheduler, op: Op)
    requires Inv(s) && Allowed(s, op)
    ensures Inv(Step(s, op))
  {
    hide RegistrationsInv, EventsInv, TopEmpty, CallsInv, HistoryInv;
    match op
    case Add(pri, slot, registered) => AddInv(s, pri, slot, registered);
    case DropSource(reg, deregistered) => DropInv(s, reg, deregistered);
    case SetWakeFwd => SetWakeFwdInv(s);
    case Poll(None) =>
    case Poll(Some(evs)) => PollInv(s, evs);
  }

  /** The invariant holds after every run: nothing accepted is lost, duplicated or reordered, the
      waker stays registered, live sources hold distinct tokens and dropping one never fails with
      NotFound, and no handler is called for a later registration's event. */
  lemma {:induction false} RunInv(s: Scheduler, ops: seq<Op>)
    requires Inv(s) && AllowedRun(s, ops)
    ensures Inv(Run(s, ops))
    decreases ops
  {
    hide RegistrationsInv, EventsInv, TopEmpty, CallsInv, HistoryInv;
    if ops != [] {
      StepInv(s, ops[0]);
      RunInv(Step(s, ops[0]), ops[1..]);
    }
  }
}
