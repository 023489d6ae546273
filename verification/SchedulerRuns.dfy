/** Properties of whole runs of the scheduler: waiting, pending work and dropped sources. */
module SchedulerRuns {

  import opened Common
  import opened Scheduler
  import opened SchedulerInvariant

  // ---------------------------------------------------------------- pending work

  /** A poll leaves work queued only after having called a handler. */
  lemma PendingImpliesActivity(s: Scheduler, evs: seq<Event>)
    requires Shape(s) && Pending(PollStep(s, evs))
    ensures |PollStep(s, evs).calls| > |s.calls|
  {
    var t := PollServesHighestLiveLevel(s, evs);
    var l :| 0 <= l < LEVELS && PollStep(s, evs).queues[l] != [];
    assert l < t;
  }

  /** The `io_pending` variable of the main loop: the flag of the last successful poll. */
  function IoPending(outs: seq<Outcome>, initially: bool): bool
    decreases outs
  {
    if outs == [] then initially
    else IoPending(outs[1..], if outs[0].Polled? then outs[0].ioPending else initially)
  }

  lemma {:induction false} IoPendingExactFrom(s: Scheduler, ops: seq<Op>)
    requires Shape(s) && AllowedRun(s, ops)
    ensures IoPending(Outputs(s, ops), Pending(s)) == Pending(Run(s, ops))
    decreases ops
  {
    if ops != [] {
      var r := Step(s, ops[0]);
      IoPendingExactFrom(r, ops[1..]);
      assert Outputs(s, ops)[1..] == Outputs(r, ops[1..]);
    }
  }

  /** Whatever happens between the polls, the main loop's flag says exactly whether events are
      still queued, so the loop never sleeps on queued work and never spins without any. */
  lemma IoPendingExact(wakerPri: nat, ops: seq<Op>)
    requires AllowedRun(Start(wakerPri), ops)
    ensures IoPending(Outputs(Start(wakerPri), ops), false) == Pending(Run(Start(wakerPri), ops))
  {
    IoPendingExactFrom(Start(wakerPri), ops);
  }

  // ---------------------------------------------------------------- histories only grow

  ghost predicate Grows(s: Scheduler, r: Scheduler)
    requires Shape(s) && Shape(r)
  {
    && s.calls <= r.calls
    && (forall l :: 0 <= l < LEVELS ==> s.accepted[l] <= r.accepted[l])
    && (forall l :: 0 <= l < LEVELS ==> s.handled[l] <= r.handled[l])
  }

  lemma PollGrows(s: Scheduler, evs: seq<Event>)
    requires Shape(s)
    ensures Grows(s, PollStep(s, evs))
  {
    var t := PollServesHighestLiveLevel(s, evs);
    AcceptAppends(s, evs);
    assert Grows(s, Accept(s, evs));
    assert Grows(Accept(s, evs), PollStep(s, evs));
  }

  lemma StepGrows(s: Scheduler, op: Op)
    requires Shape(s) && Allowed(s, op)
    ensures Grows(s, Step(s, op))
  {
    match op
    case Add(_, _, _) =>
    case DropSource(_, _) =>
    case SetWakeFwd =>
    case Poll(None) =>
    case Poll(Some(evs)) => PollGrows(s, evs);
  }

  lemma {:induction false} RunGrows(s: Scheduler, ops: seq<Op>)
    requires Shape(s) && AllowedRun(s, ops)
    ensures Grows(s, Run(s, ops))
    decreases ops
  {
    if ops != [] {
      StepGrows(s, ops[0]);
      RunGrows(Step(s, ops[0]), ops[1..]);
    }
  }

  // ---------------------------------------------------------------- bounded waiting

  /** The number of nonempty queues at `level` or above. */
  ghost function Busy(queues: seq<seq<QueueEvent>>, level: nat): nat
    decreases |queues| - level
  {
    if level >= |queues| then 0
    else (if queues[level] != [] then 1 else 0) + Busy(queues, level + 1)
  }

  /** The number of events ever accepted at `level` or above. */
  ghost function Arrivals(accepted: seq<seq<QueueEvent>>, level: nat): nat
    decreases |accepted| - level
  {
    if level >= |accepted| then 0 else |accepted[level]| + Arrivals(accepted, level + 1)
  }

  function Polls(ops: seq<Op>): nat {
    if ops == [] then 0
    else (if ops[0].Poll? && ops[0].events.Some? then 1 else 0) + Polls(ops[1..])
  }

  lemma {:induction false} BusyAfterAccept(s: Scheduler, evs: seq<Event>, level: nat)
    requires Shape(s) && level <= LEVELS
    ensures var a := Accept(s, evs);
            Busy(a.queues, level) + Arrivals(s.accepted, level) <= Busy(s.queues, level) + Arrivals(a.accepted, level)
    decreases LEVELS - level
  {
    if level < LEVELS {
      AcceptAppends(s, evs);
      BusyAfterAccept(s, evs, level + 1);
    }
  }

  lemma {:induction false} BusyAfterServe(a: Scheduler, r: Scheduler, t: nat, level: nat)
    requires Shape(a) && Shape(r) && t < LEVELS && level <= LEVELS && ServedFrom(a, r, LEVELS, t)
    ensures Busy(r.queues, level) <= Busy(a.queues, level)
    ensures level <= t && a.queues[t] != [] ==> Busy(r.queues, level) < Busy(a.queues, level)
    decreases LEVELS - level
  {
    if level < LEVELS {
      BusyAfterServe(a, r, t, level + 1);
    }
  }

  /** A successful poll empties level `p`, or it serves a busy level above `p`. */
  lemma PollMakesProgress(s: Scheduler, evs: seq<Event>, p: nat)
    requires Shape(s) && p < LEVELS
    ensures var r := PollStep(s, evs);
            || r.queues[p] == []
            || Busy(r.queues, p + 1) + Arrivals(s.accepted, p + 1) < Busy(s.queues, p + 1) + Arrivals(r.accepted, p + 1)
  {
    var t := PollServesHighestLiveLevel(s, evs);
    if p < t {
      BusyAfterAccept(s, evs, p + 1);
      BusyAfterServe(Accept(s, evs), PollStep(s, evs), t, p + 1);
    }
  }

  lemma {:induction false} ArrivalsGrow(a: seq<seq<QueueEvent>>, b: seq<seq<QueueEvent>>, level: nat)
    requires |a| == |b| && forall l :: 0 <= l < |a| ==> a[l] <= b[l]
    ensures Arrivals(a, level) <= Arrivals(b, level)
    decreases |a| - level
  {
    if level < |a| {
      ArrivalsGrow(a, b, level + 1);
    }
  }

  /** Once level `p` is empty, everything accepted at `p` before stays handled. */
  lemma EmptyThenHandled(r: Scheduler, z: Scheduler, p: nat)
    requires Shape(r) && Shape(z) && p < LEVELS && HistoryInv(r) && Grows(r, z) && r.queues[p] == []
    ensures r.accepted[p] <= EventsOf(z.handled[p])
  {
    assert r.accepted[p] == EventsOf(r.handled[p]);
    assert EventsOf(r.handled[p]) <= EventsOf(z.handled[p]);
  }

  ghost predicate Overdue(s: Scheduler, z: Scheduler, polls: nat, p: nat)
    requires Shape(s) && Shape(z)
  {
    polls + Arrivals(s.accepted, p + 1) > Busy(s.queues, p + 1) + Arrivals(z.accepted, p + 1)
  }

  /** Waiting is bounded by higher-priority traffic.  Whatever is added and dropped in between,
      once a run holds more successful polls than there were busy levels above `p` plus events
      accepted above `p` during the run, every event that had been accepted at `p` is handled. */
  lemma {:induction false} BoundedWaiting(s: Scheduler, ops: seq<Op>, p: nat)
    requires Inv(s) && AllowedRun(s, ops) && p < LEVELS
    requires Overdue(s, Run(s, ops), Polls(ops), p)
    ensures s.accepted[p] <= EventsOf(Run(s, ops).handled[p])
    decreases ops
  {
    hide RegistrationsInv, EventsInv, TopEmpty, CallsInv, HistoryInv, Step, Busy, Arrivals;
    var z := Run(s, ops);
    RunGrows(s, ops);
    ArrivalsGrow(s.accepted, z.accepted, p + 1);
    var op, rest := ops[0], ops[1..];
    var r := Step(s, op);
    StepInv(s, op);
    StepGrows(s, op);
    RunGrows(r, rest);
    StepMakesProgress(s, op, p);
    if op.Poll? && op.events.Some? && r.queues[p] == [] {
      EmptyThenHandled(r, z, p);
    } else {
      BoundedWaiting(r, rest, p);
    }
  }

  lemma StepMakesProgress(s: Scheduler, op: Op, p: nat)
    requires Shape(s) && Allowed(s, op) && p < LEVELS
    ensures var r := Step(s, op);
            if op.Poll? && op.events.Some? then
              || r.queues[p] == []
              || Busy(r.queues, p + 1) + Arrivals(s.accepted, p + 1)
                 < Busy(s.queues, p + 1) + Arrivals(r.accepted, p + 1)
            else r.queues == s.queues && r.accepted == s.accepted
  {
    hide PollStep, Busy, Arrivals;
    if op.Poll? && op.events.Some? {
      PollMakesProgress(s, op.events.value, p);
    }
  }

  lemma {:induction false} BusyBelow(s: Scheduler, level: nat, top: nat)
    requires Inv(s) && level <= LEVELS && forall m :: m in s.levels ==> m <= top
    ensures Busy(s.queues, level) <= if level < top then top - level else 0
    decreases LEVELS - level
  {
    if level < LEVELS {
      BusyBelow(s, level + 1, top);
      if s.queues[level] != [] {
        assert level in s.levels && exists m :: m in s.levels && level < m;
      }
    }
  }

  /** With no event accepted above level `p`, all that is queued at `p` is handled within as many
      polls as there are levels from `p` up to the highest in use. */
  lemma QuietWaiting(s: Scheduler, ops: seq<Op>, p: nat, top: nat)
    requires Inv(s) && AllowedRun(s, ops) && p < top
    requires forall m :: m in s.levels ==> m <= top
    requires top < LEVELS
    requires forall l :: p < l < LEVELS ==> Run(s, ops).accepted[l] == s.accepted[l]
    requires Polls(ops) >= top - p
    ensures s.accepted[p] <= EventsOf(Run(s, ops).handled[p])
  {
    BusyBelow(s, p + 1, top);
    SameArrivals(s.accepted, Run(s, ops).accepted, p + 1);
    BoundedWaiting(s, ops, p);
  }

  lemma {:induction false} SameArrivals(a: seq<seq<QueueEvent>>, b: seq<seq<QueueEvent>>, level: nat)
    requires |a| == |b| && forall l :: level <= l < |a| ==> a[l] == b[l]
    ensures Arrivals(a, level) == Arrivals(b, level)
    decreases |a| - level
  {
    if level < |a| {
      SameArrivals(a, b, level + 1);
    }
  }

  // ---------------------------------------------------------------- starvation

  ghost function Repeat(op: Op, n: nat): seq<Op> {
    if n == 0 then [] else [op] + Repeat(op, n - 1)
  }

  /** A successful poll that reports just the event of the waker. */
  ghost predicate WakerOnly(op: Op) {
    op.Poll? && op.events.Some? && |op.events.value| == 1 && op.events.value[0].token == WAKER_TOKEN
  }

  ghost predicate Starving(s: Scheduler) {
    && Shape(s)
    && WAKER_TOKEN in s.entries
    && s.entries[WAKER_TOKEN].pri == MAX_PRI
    && s.queues[0] != []
  }

  /** A poll that reports an event at the top level leaves the other queues alone. */
  lemma {:induction false} TopLevelServed(s: Scheduler, evs: seq<Event>)
    requires Shape(s) && WAKER_TOKEN in s.entries && s.entries[WAKER_TOKEN].pri == MAX_PRI
    requires evs != [] && evs[|evs| - 1].token == WAKER_TOKEN
    ensures PollStep(s, evs).entries == s.entries
    ensures PollStep(s, evs).queues[0] == s.queues[0] + AtLevel(s.entries, evs, 0)
  {
    var a := Accept(s, evs);
    var t := PollServesHighestLiveLevel(s, evs);
    AcceptAppends(s, evs);
    var q := a.queues[MAX_PRI];
    assert q[|q| - 1].token in a.entries;
    assert Live(a.entries, q);
    assert t == MAX_PRI;
  }

  lemma {:induction false} HeavyPollStarves(s: Scheduler, op: Op)
    requires Starving(s) && WakerOnly(op)
    ensures Starving(Step(s, op))
  {
    TopLevelServed(s, op.events.value);
  }

  lemma {:induction false} RunCons(s: Scheduler, op: Op, ops: seq<Op>)
    requires Shape(s) && Allowed(s, op) && AllowedRun(Step(s, op), ops)
    ensures AllowedRun(s, [op] + ops) && Run(s, [op] + ops) == Run(Step(s, op), ops)
  {
    assert ([op] + ops)[1..] == ops;
  }

  lemma {:induction false} HeavyLoadStarves(s: Scheduler, op: Op, n: nat)
    requires Starving(s) && WakerOnly(op)
    ensures AllowedRun(s, Repeat(op, n)) && Starving(Run(s, Repeat(op, n)))
    decreases n
  {
    if n != 0 {
      HeavyPollStarves(s, op);
      HeavyLoadStarves(Step(s, op), op, n - 1);
      RunCons(s, op, Repeat(op, n - 1));
    }
  }

  lemma {:induction false} RepeatPolls(op: Op, n: nat)
    requires WakerOnly(op)
    ensures Polls(Repeat(op, n)) == n
  {
    if n != 0 {
      RepeatPolls(op, n - 1);
      assert Repeat(op, n)[1..] == Repeat(op, n - 1);
    }
  }

  /** The run that queues an event at level 0 while the waker, at the highest level, is served. */
  function StarvingStart(): seq<Op> {
    [Op.Add(0, 1, true), Poll(Some([Event(1, 0), Event(WAKER_TOKEN, 0)]))]
  }

  lemma StarvingStateReached()
    ensures AllowedRun(Start(MAX_PRI), StarvingStart())
    ensures Starving(Run(Start(MAX_PRI), StarvingStart()))
  {
    hide PollStep;
    var s0, ops := Start(MAX_PRI), StarvingStart();
    var s1 := AddStep(s0, 0, 1, true);
    var evs := ops[1].events.value;
    TopLevelServed(s1, evs);
    assert AtLevel(s1.entries, evs, 0) != [] by {
      assert evs[..1] == [Event(1, 0)];
    }
    assert ops[1..] == [ops[1]] && ops[1..][1..] == [];
    assert Run(s0, ops) == Run(s1, ops[1..]) == Run(PollStep(s1, evs), []);
  }

  /** The hypothesis on higher-priority traffic is needed: from the start there is a run after which
      an event queued at level 0 is still waiting after any number of further polls, as the
      documentation warns. */
  lemma StarvationIsPossible(n: nat)
    ensures exists before, ops ::
              && AllowedRun(Start(MAX_PRI), before) && AllowedRun(Run(Start(MAX_PRI), before), ops)
              && Polls(ops) == n
              && Run(Start(MAX_PRI), before).queues[0] != []
              && Run(Run(Start(MAX_PRI), before), ops).queues[0] != []
  {
    hide Run, AllowedRun;
    var op := Poll(Some([Event(WAKER_TOKEN, 0)]));
    StarvingStateReached();
    HeavyLoadStarves(Run(Start(MAX_PRI), StarvingStart()), op, n);
    RepeatPolls(op, n);
  }

  // ---------------------------------------------------------------- dropped sources

  lemma GonePoll(s: Scheduler, evs: seq<Event>, reg: nat)
    requires Inv(s) && Gone(s, reg)
    ensures var r := PollStep(s, evs);
            Gone(r, reg) && forall i :: |s.calls| <= i < |r.calls| ==> r.calls[i].reg != reg
  {
    var a, r := Accept(s, evs), PollStep(s, evs);
    AcceptInv(s, evs);
    var t := PollServesHighestLiveLevel(s, evs);
    DeliverCalls(a, t, a.queues[t]);
    hide EventsInv, RegistrationsInv;
    forall i | |s.calls| <= i < |r.calls|
      ensures r.calls[i].reg != reg
    {
      assert r.calls[i] in Deliver(a.entries, t, a.queues[t]);
      assert !Gone(a, r.calls[i].reg);
    }
  }

  lemma GoneStep(s: Scheduler, op: Op, reg: nat)
    requires Inv(s) && Allowed(s, op) && Gone(s, reg)
    ensures var r := Step(s, op);
            Gone(r, reg) && forall i :: |s.calls| <= i < |r.calls| ==> r.calls[i].reg != reg
  {
    match op
    case Add(_, _, _) =>
    case DropSource(_, _) =>
    case SetWakeFwd =>
    case Poll(None) =>
    case Poll(Some(evs)) => GonePoll(s, evs, reg);
  }

  lemma {:induction false} GoneNeverCalled(s: Scheduler, ops: seq<Op>, reg: nat)
    requires Inv(s) && AllowedRun(s, ops) && Gone(s, reg)
    ensures var r := Run(s, ops);
            && s.calls <= r.calls
            && forall i :: |s.calls| <= i < |r.calls| ==> r.calls[i].reg != reg
    decreases ops
  {
    hide RegistrationsInv, EventsInv, TopEmpty, CallsInv, HistoryInv;
    if ops != [] {
      var m := Step(s, ops[0]);
      GoneStep(s, ops[0], reg);
      StepInv(s, ops[0]);
      StepGrows(s, ops[0]);
      GoneNeverCalled(m, ops[1..], reg);
    }
  }

  /** Once a source is dropped its handler is never called again, although its events may still
      be queued and its slot may be handed to another registration. */
  lemma DroppedSourceNeverCalled(s: Scheduler, reg: nat, deregistered: bool, ops: seq<Op>)
    requires Inv(s) && reg in s.sources
    requires AllowedRun(DropStep(s, reg, deregistered), ops)
    ensures var r := Run(DropStep(s, reg, deregistered), ops);
            forall i :: |s.calls| <= i < |r.calls| ==> r.calls[i].reg != reg
  {
    DropInv(s, reg, deregistered);
    GoneNeverCalled(DropStep(s, reg, deregistered), ops, reg);
  }
}
