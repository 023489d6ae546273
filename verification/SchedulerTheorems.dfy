/** What holds on every run of the scheduler, in plain terms. */
module SchedulerTheorems {

  import opened Common
  import opened Scheduler
  import opened SchedulerInvariant
  import opened SchedulerRuns
  import opened SchedulerDelivery

  /** The state that a run from the start has reached. */
  ghost function Reached(wakerPri: nat, ops: seq<Op>): (s: Scheduler)
    requires AllowedRun(Start(wakerPri), ops)
    ensures Shape(s)
  {
    Run(Start(wakerPri), ops)
  }

  lemma ReachedInv(wakerPri: nat, ops: seq<Op>)
    requires AllowedRun(Start(wakerPri), ops)
    ensures Inv(Reached(wakerPri, ops)) && DeliveryInv(Reached(wakerPri, ops))
  {
    hide Inv, DeliveryInv, Start;
    StartInv(wakerPri);
    RunInv(Start(wakerPri), ops);
    StartDelivers(wakerPri);
    RunDelivers(Start(wakerPri), ops);
  }

  /** On every run, live sources hold distinct tokens other than the waker's, their slab entries are
      in place, and no drop has reported an unknown token. */
  lemma RegistrationSafety(wakerPri: nat, ops: seq<Op>)
    requires AllowedRun(Start(wakerPri), ops)
    ensures var s := Reached(wakerPri, ops);
            && WAKER_TOKEN in s.entries
            && NotFound !in s.errors
            && (forall a, b :: a in s.sources && b in s.sources && a != b ==> s.sources[a] != s.sources[b])
            && (forall a :: a in s.sources ==> s.sources[a] != WAKER_TOKEN && s.sources[a] in s.entries)
  {
    hide Reached;
    ReachedInv(wakerPri, ops);
  }

  /** On every run, a handler is called by the token of its own slot: for its own event and at its own
      priority level, or else for the event of an earlier registration that held the same slot and no
      longer exists. */
  lemma CallSafety(wakerPri: nat, ops: seq<Op>, i: nat)
    requires AllowedRun(Start(wakerPri), ops)
    requires i < |Reached(wakerPri, ops).calls|
    ensures var s := Reached(wakerPri, ops);
            var c := s.calls[i];
            && c.reg < |s.slots| && c.origin < |s.slots| && s.slots[c.reg] == s.slots[c.origin] == c.token
            && if c.origin == c.reg then c.pri == c.level
               else c.origin < c.reg && forall t :: t in s.entries ==> s.entries[t].reg != c.origin
  {
    hide Reached;
    ReachedInv(wakerPri, ops);
    assert CallInv(Reached(wakerPri, ops), Reached(wakerPri, ops).calls[i]);
  }

  /** On every run, what was accepted at a level is what was delivered or discarded there followed by
      what is queued there: nothing is lost, duplicated or reordered. */
  lemma Conservation(wakerPri: nat, ops: seq<Op>, level: nat)
    requires AllowedRun(Start(wakerPri), ops) && level < LEVELS
    ensures var s := Reached(wakerPri, ops);
            && s.accepted[level] == EventsOf(s.handled[level]) + s.queues[level]
            && CallsFor(s.calls, level) == Delivered(s.handled[level])
  {
    hide Reached;
    ReachedInv(wakerPri, ops);
  }

  /** In every reachable state, all calls of a poll are made for one level `t`, the highest at which an
      event is waiting for a registered token; what waits above it is dead and is discarded, what
      waits below it stays, and the handlers called are those of the events at `t`, in order. */
  lemma NoPriorityInversion(wakerPri: nat, ops: seq<Op>, evs: seq<Event>) returns (t: nat)
    requires AllowedRun(Start(wakerPri), ops)
    ensures t < LEVELS
    ensures var a, r := Accept(Reached(wakerPri, ops), evs), PollStep(Reached(wakerPri, ops), evs);
            && (forall l :: t < l < LEVELS ==> !Live(a.entries, a.queues[l]))
            && (forall l :: 0 <= l < LEVELS ==> r.queues[l] == if l < t then a.queues[l] else [])
            && r.calls == a.calls + Deliver(a.entries, t, a.queues[t])
            && (|r.calls| > |a.calls| <==> Live(a.entries, a.queues[t]))
            && (Pending(r) ==> |r.calls| > |a.calls|)
  {
    hide Reached, PollStep, Accept;
    var s := Reached(wakerPri, ops);
    t := PollServesHighestLiveLevel(s, evs);
    if Pending(PollStep(s, evs)) {
      PendingImpliesActivity(s, evs);
    }
    SameCalls(s, evs);
  }

  lemma SameCalls(s: Scheduler, evs: seq<Event>)
    requires Shape(s)
    ensures Accept(s, evs).calls == s.calls && Accept(s, evs).entries == s.entries
  {
  }

  /** Waiting is bounded by higher-priority traffic, from every reachable state: once the run goes on
      for more successful polls than there were busy levels above `p` plus events accepted above `p`
      in the meantime, all that had been accepted at `p` is handled. */
  lemma WaitingIsBounded(wakerPri: nat, before: seq<Op>, ops: seq<Op>, p: nat)
    requires AllowedRun(Start(wakerPri), before) && AllowedRun(Reached(wakerPri, before), ops) && p < LEVELS
    requires Overdue(Reached(wakerPri, before), Run(Reached(wakerPri, before), ops), Polls(ops), p)
    ensures Reached(wakerPri, before).accepted[p] <= EventsOf(Run(Reached(wakerPri, before), ops).handled[p])
  {
    hide Reached, Overdue, Inv;
    ReachedInv(wakerPri, before);
    BoundedWaiting(Reached(wakerPri, before), ops, p);
  }

  /** With nothing accepted above level `p`, all that waits at `p` is handled within as many successful
      polls as there are levels from `p` up to the highest in use. */
  lemma QuietLevelIsServed(wakerPri: nat, before: seq<Op>, ops: seq<Op>, p: nat, top: nat)
    requires AllowedRun(Start(wakerPri), before) && AllowedRun(Reached(wakerPri, before), ops)
    requires p < top < LEVELS && forall m :: m in Reached(wakerPri, before).levels ==> m <= top
    requires forall l :: p < l < LEVELS ==>
               Run(Reached(wakerPri, before), ops).accepted[l] == Reached(wakerPri, before).accepted[l]
    requires Polls(ops) >= top - p
    ensures Reached(wakerPri, before).accepted[p] <= EventsOf(Run(Reached(wakerPri, before), ops).handled[p])
  {
    hide Reached, Inv;
    ReachedInv(wakerPri, before);
    QuietWaiting(Reached(wakerPri, before), ops, p, top);
  }

  /** Once a source is dropped its handler is never called again, from every reachable state. */
  lemma DroppedStaysSilent(wakerPri: nat, before: seq<Op>, reg: nat, deregistered: bool, ops: seq<Op>, i: nat)
    requires AllowedRun(Start(wakerPri), before) && reg in Reached(wakerPri, before).sources
    requires AllowedRun(DropStep(Reached(wakerPri, before), reg, deregistered), ops)
    requires |Reached(wakerPri, before).calls| <= i
    requires i < |Run(DropStep(Reached(wakerPri, before), reg, deregistered), ops).calls|
    ensures Run(DropStep(Reached(wakerPri, before), reg, deregistered), ops).calls[i].reg != reg
  {
    hide Reached, Inv, DropStep;
    ReachedInv(wakerPri, before);
    DroppedSourceNeverCalled(Reached(wakerPri, before), reg, deregistered, ops);
  }

  /** Once the wake handler is replaced the old one is never called again. */
  lemma ReplacedWakeFwdStaysSilent(wakerPri: nat, before: seq<Op>, ops: seq<Op>, i: nat)
    requires AllowedRun(Start(wakerPri), before) && WAKER_TOKEN in Reached(wakerPri, before).entries
    requires AllowedRun(SetWakeFwdStep(Reached(wakerPri, before)), ops)
    requires |Reached(wakerPri, before).calls| <= i
    requires i < |Run(SetWakeFwdStep(Reached(wakerPri, before)), ops).calls|
    ensures Run(SetWakeFwdStep(Reached(wakerPri, before)), ops).calls[i].reg
            != Reached(wakerPri, before).entries[WAKER_TOKEN].reg
  {
    hide Reached, Inv, Gone;
    ReachedInv(wakerPri, before);
    var s := Reached(wakerPri, before);
    SetWakeFwdInv(s);
    GoneNeverCalled(SetWakeFwdStep(s), ops, s.entries[WAKER_TOKEN].reg);
  }
}
