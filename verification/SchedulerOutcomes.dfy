/**
 What the operations of the scheduler answer and which handlers they call, in the caller's terms: the
 priorities given to `add` and to the constructor, the events that were reported, and the answers of mio.
 */
module SchedulerOutcomes {

  import opened Common
  import opened Scheduler
  import opened SchedulerInvariant
  import opened SchedulerRuns
  import opened SchedulerTheorems
  import opened SchedulerDelivery

  // ---------------------------------------------------------------- registering and dropping

  /** A new entry gets the priority asked for, or 10 if that is more; the other entries stay.  The caller
      gets a source with the slot as its token exactly when mio registers it, but the entry is there in
      any case. */
  lemma AddGivesPriority(s: Scheduler, pri: nat, slot: nat, registered: bool)
    requires Shape(s) && slot !in s.entries
    ensures var op := Op.Add(pri, slot, registered);
            var r := Step(s, op);
            && slot in r.entries && r.entries[slot].pri == (if pri <= 10 then pri else 10)
            && r.entries[slot].reg == s.nextReg
            && r.entries - {slot} == s.entries
            && (if registered then Output(s, op) == Added(slot) && r.sources == s.sources[s.nextReg := slot]
                else Output(s, op) == AddFailed && r.sources == s.sources)
            && (r.queues, r.accepted, r.handled, r.calls, r.errors)
               == (s.queues, s.accepted, s.handled, s.calls, s.errors)
  {
    assert s.entries - {slot} == s.entries;
  }

  lemma StartGivesPriority(wakerPri: nat)
    ensures var s := Start(wakerPri);
            && s.entries.Keys == {0}
            && s.entries[0].pri == (if wakerPri <= 10 then wakerPri else 10)
            && s.sources == map[] && s.errors == [] && s.calls == [] && !Pending(s)
  {
  }

  /** In every reachable state, dropping a live source takes away its entry and no other.  It reports,
      and records, an error exactly when mio fails to deregister it. */
  lemma DropAnswers(wakerPri: nat, ops: seq<Op>, reg: nat, deregistered: bool)
    requires AllowedRun(Start(wakerPri), ops) && reg in Reached(wakerPri, ops).sources
    ensures var s := Reached(wakerPri, ops);
            var op := DropSource(reg, deregistered);
            var r := Step(s, op);
            && r.entries == s.entries - {s.sources[reg]} && r.sources == s.sources - {reg}
            && Output(s, op) == Dropped(if deregistered then None else Some(DeregisterFailed))
            && r.errors == s.errors + (if deregistered then [] else [DeregisterFailed])
            && (r.queues, r.accepted, r.handled, r.calls) == (s.queues, s.accepted, s.handled, s.calls)
  {
    hide Reached;
    ReachedInv(wakerPri, ops);
    RegistrationSafety(wakerPri, ops);
  }

  /** Setting the wake handler changes the waker's entry only, which keeps its priority. */
  lemma SetWakeFwdAnswers(s: Scheduler)
    requires Shape(s) && WAKER_TOKEN in s.entries
    ensures var r := Step(s, SetWakeFwd);
            && r.entries.Keys == s.entries.Keys
            && (forall t :: t in s.entries && t != WAKER_TOKEN ==> r.entries[t] == s.entries[t])
            && r.entries[WAKER_TOKEN].pri == s.entries[WAKER_TOKEN].pri
            && r.entries[WAKER_TOKEN].reg == s.nextReg == r.nextReg - 1
            && (r.queues, r.sources, r.accepted, r.handled, r.calls, r.errors)
               == (s.queues, s.sources, s.accepted, s.handled, s.calls, s.errors)
  {
  }

  // ---------------------------------------------------------------- the answer of a poll

  /** An event for a registered token is reported with this priority. */
  ghost predicate ReportedAt(s: Scheduler, evs: seq<Event>, level: nat) {
    exists i :: 0 <= i < |evs| && evs[i].token in s.entries && s.entries[evs[i].token].pri == level
  }

  /** An event that has a handler to go to is queued or reported at this level. */
  ghost predicate LiveAt(s: Scheduler, evs: seq<Event>, level: nat)
    requires Shape(s) && level < LEVELS
  {
    ReportedAt(s, evs, level) || exists i :: 0 <= i < |s.queues[level]| && s.queues[level][i].token in s.entries
  }

  ghost predicate WaitingAt(s: Scheduler, evs: seq<Event>, level: nat)
    requires Shape(s) && level < LEVELS
  {
    ReportedAt(s, evs, level) || s.queues[level] != []
  }

  lemma {:induction false} ReportedJoin(s: Scheduler, evs: seq<Event>, level: nat)
    ensures AtLevel(s.entries, evs, level) != [] <==> ReportedAt(s, evs, level)
  {
    if evs != [] {
      var n := |evs| - 1;
      ReportedJoin(s, evs[..n], level);
      if i :| 0 <= i < |evs| && evs[i].token in s.entries && s.entries[evs[i].token].pri == level {
        assert i == n || evs[..n][i] == evs[i];
      }
      if i :| 0 <= i < n && evs[..n][i].token in s.entries && s.entries[evs[..n][i].token].pri == level {
        assert evs[i] == evs[..n][i];
      }
    }
  }

  /** After the reported events have been accepted, a level holds just what was waiting there. */
  lemma AcceptedLevel(s: Scheduler, evs: seq<Event>, level: nat)
    requires Shape(s) && level < LEVELS
    ensures var a := Accept(s, evs);
            && (a.queues[level] != [] <==> WaitingAt(s, evs, level))
            && (Live(a.entries, a.queues[level]) <==> LiveAt(s, evs, level))
  {
    AcceptAppends(s, evs);
    ReportedJoin(s, evs, level);
    AtLevelEvents(s.entries, evs, level);
    var q, reported := s.queues[level], AtLevel(s.entries, evs, level);
    if i :| 0 <= i < |q| && q[i].token in s.entries {
      assert (q + reported)[i] == q[i];
    }
    if reported != [] {
      assert reported[0] in reported && (q + reported)[|q|] == reported[0];
    }
  }

  /** What a poll returns, in terms of what is queued and reported: there is activity exactly if some event
      has a handler to go to, and events are left pending exactly if, besides, something waits at a lower
      level.  So events are never left pending without activity.  A poll that fails changes nothing. */
  lemma PollAnswers(s: Scheduler, evs: seq<Event>)
    requires Shape(s)
    ensures var out := Output(s, Poll(Some(evs)));
            && out.Polled?
            && (out.activity <==> exists h: nat :: h < LEVELS && LiveAt(s, evs, h))
            && (out.ioPending <==>
                  exists l: nat, h: nat :: l < h < LEVELS && LiveAt(s, evs, h) && WaitingAt(s, evs, l))
            && (out.ioPending ==> out.activity)
    ensures Output(s, Poll(None)) == PollFailed && Step(s, Poll(None)) == s
  {
    hide LiveAt, WaitingAt, Accept, PollStep, Live;
    var t := PollServesHighestLiveLevel(s, evs);
    forall l: nat | l < LEVELS
      ensures Accept(s, evs).queues[l] != [] <==> WaitingAt(s, evs, l)
      ensures Live(Accept(s, evs).entries, Accept(s, evs).queues[l]) <==> LiveAt(s, evs, l)
    {
      AcceptedLevel(s, evs, l);
    }
    SameCalls(s, evs);
    LiveIsNotEmpty(s.entries, Accept(s, evs).queues[t]);
    PollAnswersAt(s, evs, t);
  }

  lemma LiveIsNotEmpty(entries: map<nat, Entry>, q: seq<QueueEvent>)
    ensures Live(entries, q) ==> q != []
  {
  }

  lemma PollAnswersAt(s: Scheduler, evs: seq<Event>, t: nat)
    requires Shape(s) && t < LEVELS
    requires forall l: nat :: t < l < LEVELS ==> !LiveAt(s, evs, l)
    requires t == 0 || LiveAt(s, evs, t)
    requires |PollStep(s, evs).calls| > |s.calls| <==> LiveAt(s, evs, t)
    requires forall l: nat :: l < LEVELS ==>
               (PollStep(s, evs).queues[l] != [] <==> l < t && WaitingAt(s, evs, l))
    ensures var out := PollOutput(s, evs);
            && (out.activity <==> exists h: nat :: h < LEVELS && LiveAt(s, evs, h))
            && (out.ioPending <==>
                  exists l: nat, h: nat :: l < h < LEVELS && LiveAt(s, evs, h) && WaitingAt(s, evs, l))
            && (out.ioPending ==> out.activity)
  {
    hide LiveAt, WaitingAt, PollStep;
    if l: nat, h: nat :| l < h < LEVELS && LiveAt(s, evs, h) && WaitingAt(s, evs, l) {
      assert h <= t;
      assert PollStep(s, evs).queues[l] != [];
    }
  }

  /** A poll accepts, at each level and in order, exactly the reported events of registered tokens with
      that priority. */
  lemma PollAccepts(s: Scheduler, evs: seq<Event>, level: nat)
    requires Shape(s) && level < LEVELS
    ensures Step(s, Poll(Some(evs))).accepted[level] == s.accepted[level] + AtLevel(s.entries, evs, level)
  {
    hide Accept, PollStep, ServedFrom, Live, StopsAt;
    AcceptAppends(s, evs);
    var t := PollServesHighestLiveLevel(s, evs);
    ServedAccepts(s, evs, t);
  }

  lemma ServedAccepts(s: Scheduler, evs: seq<Event>, t: nat)
    requires Shape(s) && t < LEVELS && ServedFrom(Accept(s, evs), PollStep(s, evs), LEVELS, t)
    ensures PollStep(s, evs).accepted == Accept(s, evs).accepted
  {
    hide PollStep, Accept;
  }

  // ---------------------------------------------------------------- the calls of a poll

  /** The calls owed to the events of `q`: one for each whose token is registered, with its readiness, to
      the handler that is registered now. */
  function CallsDue(entries: map<nat, Entry>, level: nat, q: seq<QueueEvent>): seq<Call> {
    if q == [] then [] else
      var e := q[0];
      (if e.token in entries
       then [Call(entries[e.token].reg, e.ready, e.origin, e.token, level, entries[e.token].pri)] else [])
      + CallsDue(entries, level, q[1..])
  }

  lemma {:induction false} CallsDueSplit(entries: map<nat, Entry>, level: nat, a: seq<QueueEvent>, b: seq<QueueEvent>)
    ensures CallsDue(entries, level, a + b) == CallsDue(entries, level, a) + CallsDue(entries, level, b)
    decreases |a|
  {
    if a == [] {
      assert a + b == b;
    } else {
      assert (a + b)[1..] == a[1..] + b;
      CallsDueSplit(entries, level, a[1..], b);
    }
  }

  lemma {:induction false} DeliverIsDue(entries: map<nat, Entry>, level: nat, q: seq<QueueEvent>)
    ensures Deliver(entries, level, q) == CallsDue(entries, level, q)
  {
    if q != [] {
      var n := |q| - 1;
      DeliverIsDue(entries, level, q[..n]);
      CallsDueSplit(entries, level, q[..n], [q[n]]);
      assert q == q[..n] + [q[n]];
      assert [q[n]][1..] == [];
      assert CallsDue(entries, level, []) == [];
    }
  }

  lemma {:induction false} DisposedAt(entries: map<nat, Entry>, q: seq<QueueEvent>, i: nat)
    requires i < |q|
    ensures |Dispose(entries, q)| == |q|
    ensures Dispose(entries, q)[i].event == q[i]
    ensures Dispose(entries, q)[i].target == if q[i].token in entries then Some(entries[q[i].token].reg) else None
  {
    var n := |q| - 1;
    if n > 0 {
      DisposedAt(entries, q[..n], if i < n then i else 0);
    }
  }

  /** What a poll does, in full: at the highest level where something waits that has a handler (or else at the
      lowest), every waiting event is handed to the handler that its token has now, in order, and only
      those of unregistered tokens are discarded; there are no other calls.  Above that level all that
      waits is discarded, for want of a handler; below it everything stays. */
  lemma PollCalls(s: Scheduler, evs: seq<Event>) returns (t: nat)
    requires Shape(s)
    ensures t < LEVELS && (t > 0 ==> LiveAt(s, evs, t)) && forall l: nat :: t < l < LEVELS ==> !LiveAt(s, evs, l)
    ensures var r := Step(s, Poll(Some(evs)));
            && r.calls == s.calls + CallsDue(s.entries, t, s.queues[t] + AtLevel(s.entries, evs, t))
            && (r.entries, r.sources, r.errors, r.nextReg, r.slots, r.levels)
               == (s.entries, s.sources, s.errors, s.nextReg, s.slots, s.levels)
    ensures forall l: nat :: l < LEVELS ==>
              var r := Step(s, Poll(Some(evs)));
              var waiting := s.queues[l] + AtLevel(s.entries, evs, l);
              && r.queues[l] == (if l < t then waiting else [])
              && r.accepted[l] == s.accepted[l] + AtLevel(s.entries, evs, l)
              && r.handled[l] == s.handled[l] + (if l < t then [] else Dispose(s.entries, waiting))
  {
    hide LiveAt, Live, PollStep;
    AcceptAppends(s, evs);
    t := PollServesHighestLiveLevel(s, evs);
    forall l: nat | l < LEVELS
      ensures Live(Accept(s, evs).entries, Accept(s, evs).queues[l]) <==> LiveAt(s, evs, l)
    {
      AcceptedLevel(s, evs, l);
    }
    SameCalls(s, evs);
    hide Accept;
    DeliverIsDue(s.entries, t, Accept(s, evs).queues[t]);
    forall l: nat | l < LEVELS
      ensures PollStep(s, evs).accepted[l] == s.accepted[l] + AtLevel(s.entries, evs, l)
    {
      PollAccepts(s, evs, l);
    }
  }

  // ---------------------------------------------------------------- the priorities asked for

  /** The priorities asked for in the course of the operations, one for each registration.  A wake handler
      has the waker's. */
  function Asked(wakerPri: nat, ops: seq<Op>): seq<nat>
    decreases ops
  {
    if ops == [] then [] else
      (match ops[0]
       case Add(pri, _, _) => [pri]
       case SetWakeFwd => [wakerPri]
       case _ => []) + Asked(wakerPri, ops[1..])
  }

  /** The priorities of all registrations of a run: the constructor makes two. */
  function Priorities(wakerPri: nat, ops: seq<Op>): seq<nat> {
    [wakerPri, wakerPri] + Asked(wakerPri, ops)
  }

  /** Every entry has the priority asked for its registration. */
  ghost predicate AsAsked(s: Scheduler, wakerPri: nat, asked: seq<nat>) {
    && |asked| == s.nextReg
    && (forall t :: t in s.entries ==> s.entries[t].reg < |asked|)
    && (forall t :: t in s.entries ==>
          var pri := asked[s.entries[t].reg];
          s.entries[t].pri == if pri <= 10 then pri else 10)
    && (WAKER_TOKEN in s.entries ==> s.entries[WAKER_TOKEN].pri == if wakerPri <= 10 then wakerPri else 10)
  }

  lemma StepAsAsked(s: Scheduler, op: Op, wakerPri: nat, asked: seq<nat>)
    requires Inv(s) && Allowed(s, op) && AsAsked(s, wakerPri, asked)
    ensures AsAsked(Step(s, op), wakerPri, asked + Asked(wakerPri, [op]))
  {
    hide EventsInv, TopEmpty, CallsInv, HistoryInv, PollStep;
    assert Asked(wakerPri, [op][1..]) == [];
    match op
    case Poll(Some(evs)) =>
      var t := PollServesHighestLiveLevel(s, evs);
      SameCalls(s, evs);
      SameEntries(s, evs, t);
    case _ =>
  }

  lemma SameEntries(s: Scheduler, evs: seq<Event>, t: nat)
    requires Shape(s) && t < LEVELS && ServedFrom(Accept(s, evs), PollStep(s, evs), LEVELS, t)
    ensures PollStep(s, evs).entries == s.entries && PollStep(s, evs).nextReg == s.nextReg
  {
  }

  lemma {:induction false} RunAsAsked(s: Scheduler, ops: seq<Op>, wakerPri: nat, asked: seq<nat>)
    requires Shape(s) && Inv(s) && AllowedRun(s, ops) && AsAsked(s, wakerPri, asked)
    ensures AsAsked(Run(s, ops), wakerPri, asked + Asked(wakerPri, ops))
    decreases ops
  {
    hide Inv, Step, AsAsked, Allowed;
    if ops == [] {
      assert asked + [] == asked;
    } else {
      StepInv(s, ops[0]);
      StepAsAsked(s, ops[0], wakerPri, asked);
      RunAsAsked(Step(s, ops[0]), ops[1..], wakerPri, asked + Asked(wakerPri, [ops[0]]));
      assert [ops[0]][1..] == [];
      assert asked + Asked(wakerPri, [ops[0]]) + Asked(wakerPri, ops[1..]) == asked + Asked(wakerPri, ops);
    }
  }

  /** On every run, every entry has the priority that the caller asked for, or 10 if that was more. */
  lemma PriorityAsAsked(wakerPri: nat, ops: seq<Op>)
    requires AllowedRun(Start(wakerPri), ops)
    ensures var s := Reached(wakerPri, ops);
            var asked := Priorities(wakerPri, ops);
            && |asked| == s.nextReg
            && (forall t :: t in s.entries ==> s.entries[t].reg < |asked|)
            && forall t :: t in s.entries ==>
                 var pri := asked[s.entries[t].reg];
                 s.entries[t].pri == if pri <= 10 then pri else 10
  {
    hide Inv, Run, AllowedRun;
    StartInv(wakerPri);
    RunAsAsked(Start(wakerPri), ops, wakerPri, [wakerPri, wakerPri]);
  }

  /** An event of this source waits for the poll: it is queued since an earlier one, or reported now. */
  ghost predicate WaitsFor(s: Scheduler, evs: seq<Event>, reg: nat)
    requires Shape(s) && reg in s.sources
  {
    || (exists i :: 0 <= i < |evs| && evs[i].token == s.sources[reg])
    || (exists l, i :: 0 <= l < LEVELS && 0 <= i < |s.queues[l]| && s.queues[l][i].origin == reg)
  }

  lemma WaitingIsLive(s: Scheduler, evs: seq<Event>, reg: nat)
    requires Inv(s) && reg in s.sources && WaitsFor(s, evs, reg)
    ensures LiveAt(s, evs, s.entries[s.sources[reg]].pri)
  {
    hide TopEmpty, CallsInv, HistoryInv;
    if l, i :| 0 <= l < LEVELS && 0 <= i < |s.queues[l]| && s.queues[l][i].origin == reg {
      assert EventInv(s, l, s.queues[l][i]);
    }
  }

  lemma {:induction false} CallsOfLevel(entries: map<nat, Entry>, level: nat, q: seq<QueueEvent>)
    ensures forall c :: c in Deliver(entries, level, q) ==>
              c.level == level && c.token in entries && c.reg == entries[c.token].reg && c.pri == entries[c.token].pri
  {
    if q != [] {
      CallsOfLevel(entries, level, q[..|q| - 1]);
    }
  }

  /** All calls of a poll are for the highest level at which something waits that has a handler. */
  lemma CallsAtHighest(s: Scheduler, evs: seq<Event>, level: nat, i: nat)
    requires Shape(s) && level < LEVELS && LiveAt(s, evs, level)
    requires |s.calls| <= i < |PollStep(s, evs).calls|
    ensures var c := PollStep(s, evs).calls[i];
            && c.level >= level && c.token in s.entries
            && c.reg == s.entries[c.token].reg && c.pri == s.entries[c.token].pri
  {
    hide LiveAt, Live, PollStep, Accept;
    var t := PollServesHighestLiveLevel(s, evs);
    AcceptedLevel(s, evs, level);
    SameCalls(s, evs);
    var a := Accept(s, evs);
    CallsOfLevel(a.entries, t, a.queues[t]);
    assert PollStep(s, evs).calls[i] in Deliver(a.entries, t, a.queues[t]);
  }

  /** Higher priorities first, as the callers gave them: in every reachable state, while an event waits for a
      live source added with priority `q`, no poll calls the handler of a live source added with a lower
      one, unless for a leftover event of an earlier holder of its slot. */
  lemma HigherPriorityFirst(wakerPri: nat, ops: seq<Op>, evs: seq<Event>, high: nat, low: nat, i: nat)
    requires AllowedRun(Start(wakerPri), ops)
    requires high in Reached(wakerPri, ops).sources && low in Reached(wakerPri, ops).sources
    requires high < |Priorities(wakerPri, ops)| && low < |Priorities(wakerPri, ops)|
    requires Priorities(wakerPri, ops)[low] < Priorities(wakerPri, ops)[high] <= 10
    requires WaitsFor(Reached(wakerPri, ops), evs, high)
    requires |Reached(wakerPri, ops).calls| <= i < |PollStep(Reached(wakerPri, ops), evs).calls|
    ensures var c := PollStep(Reached(wakerPri, ops), evs).calls[i];
            c.reg == low ==> c.origin < low
  {
    hide Reached, PollStep, Priorities, LiveAt;
    var s := Reached(wakerPri, ops);
    ReachedInv(wakerPri, ops);
    PriorityAsAsked(wakerPri, ops);
    WaitingIsLive(s, evs, high);
    CallsAtHighest(s, evs, s.entries[s.sources[high]].pri, i);
    PollInv(s, evs);
    hide EventsInv, TopEmpty, HistoryInv;
    var c := PollStep(s, evs).calls[i];
    assert CallInv(PollStep(s, evs), c);
  }

  lemma {:induction false} CallsDueHas(entries: map<nat, Entry>, level: nat, q: seq<QueueEvent>, token: nat)
    requires token in entries
    requires forall u :: u in entries && entries[u].reg == entries[token].reg ==> u == token
    ensures (exists c :: c in CallsDue(entries, level, q) && c.reg == entries[token].reg)
            <==> exists i :: 0 <= i < |q| && q[i].token == token
  {
    if q != [] {
      CallsDueHas(entries, level, q[1..], token);
      var due, rest := CallsDue(entries, level, q), CallsDue(entries, level, q[1..]);
      if i :| 0 <= i < |q| && q[i].token == token {
        if i == 0 {
          assert due[0].reg == entries[token].reg && due[0] in due;
        } else {
          assert q[1..][i - 1].token == token;
          var c :| c in rest && c.reg == entries[token].reg;
          assert c in due;
        }
      }
      if c :| c in due && c.reg == entries[token].reg {
        if c in rest {
          var i :| 0 <= i < |q[1..]| && q[1..][i].token == token;
          assert q[i + 1].token == token;
        } else {
          assert c == due[0] && q[0].token == token;
        }
      }
    }
  }

  /** The poll calls this handler. */
  ghost predicate IsCalled(s: Scheduler, evs: seq<Event>, reg: nat)
    requires Shape(s)
  {
    var calls := PollStep(s, evs).calls;
    exists i :: |s.calls| <= i < |calls| && calls[i].reg == reg
  }

  /** So the lower one is called out of turn if and only if an event of an earlier holder of its slot is still
      queued at the highest level at which something waits that has a handler. */
  lemma LowerCalledIff(wakerPri: nat, ops: seq<Op>, evs: seq<Event>, high: nat, low: nat) returns (t: nat)
    requires AllowedRun(Start(wakerPri), ops)
    requires high in Reached(wakerPri, ops).sources && low in Reached(wakerPri, ops).sources
    requires high < |Priorities(wakerPri, ops)| && low < |Priorities(wakerPri, ops)|
    requires Priorities(wakerPri, ops)[low] < Priorities(wakerPri, ops)[high] <= 10
    requires WaitsFor(Reached(wakerPri, ops), evs, high)
    ensures var s := Reached(wakerPri, ops);
            && t < LEVELS && LiveAt(s, evs, t) && (forall l: nat :: t < l < LEVELS ==> !LiveAt(s, evs, l))
            && (IsCalled(s, evs, low) <==> exists i :: 0 <= i < |s.queues[t]| && s.queues[t][i].token == s.sources[low])
  {
    hide Reached, PollStep, Step, AllowedRun, Priorities, LiveAt, WaitsFor, AtLevel, CallsDue,
         RegistrationsInv, EventsInv, TopEmpty, CallsInv, HistoryInv, DeliveryInv, Dispose;
    var s := Reached(wakerPri, ops);
    ReachedInv(wakerPri, ops);
    PriorityAsAsked(wakerPri, ops);
    WaitingIsLive(s, evs, high);
    SourceEntry(s, high);
    SourceEntry(s, low);
    t := PollCalls(s, evs);
    StepIsPoll(s, evs);
    LowerCalledAt(s, evs, low, t);
  }

  lemma SourceEntry(s: Scheduler, reg: nat)
    requires RegistrationsInv(s) && reg in s.sources
    ensures s.sources[reg] in s.entries && s.entries[s.sources[reg]].reg == reg
  {
  }

  lemma StepIsPoll(s: Scheduler, evs: seq<Event>)
    requires Shape(s)
    ensures Step(s, Poll(Some(evs))) == PollStep(s, evs)
  {
    hide PollStep;
  }

  lemma LowerCalledAt(s: Scheduler, evs: seq<Event>, low: nat, t: nat)
    requires Shape(s) && RegistrationsInv(s) && low in s.sources && s.entries[s.sources[low]].pri < t < LEVELS
    requires PollStep(s, evs).calls
             == s.calls + CallsDue(s.entries, t, s.queues[t] + AtLevel(s.entries, evs, t))
    ensures IsCalled(s, evs, low)
            <==> exists i :: 0 <= i < |s.queues[t]| && s.queues[t][i].token == s.sources[low]
  {
    hide PollStep, RegistrationsInv, AtLevel, CallsDue, IsCalled;
    SourceEntry(s, low);
    var token, q := s.sources[low], s.queues[t];
    var joined := AtLevel(s.entries, evs, t);
    AtLevelEvents(s.entries, evs, t);
    assert forall i :: 0 <= i < |joined| ==> joined[i] in joined && joined[i].token != token;
    OnlyEntry(s, token);
    CallsDueHas(s.entries, t, q + joined, token);
    CalledIsDue(s, evs, CallsDue(s.entries, t, q + joined), low);
    if i :| 0 <= i < |q| && q[i].token == token {
      assert (q + joined)[i].token == token;
    }
  }

  lemma OnlyEntry(s: Scheduler, token: nat)
    requires RegistrationsInv(s) && token in s.entries
    ensures forall u :: u in s.entries && s.entries[u].reg == s.entries[token].reg ==> u == token
  {
  }

  lemma CalledIsDue(s: Scheduler, evs: seq<Event>, due: seq<Call>, reg: nat)
    requires Shape(s) && PollStep(s, evs).calls == s.calls + due
    ensures IsCalled(s, evs, reg) <==> exists c :: c in due && c.reg == reg
  {
    hide PollStep;
    var calls := PollStep(s, evs).calls;
    assert forall i :: |s.calls| <= i < |calls| ==> calls[i] == due[i - |s.calls|] && calls[i] in due;
    assert forall i :: 0 <= i < |due| ==> calls[|s.calls| + i] == due[i];
  }

  /** A run after which this happens: a source of priority 9 leaves an event behind, and a source of
      priority 1 takes over its slot; it is called before one of priority 5. */
  function LeftoverRun(): seq<Op> {
    [Op.Add(9, 1, true), Op.Add(5, 2, true), Poll(Some([Event(0, 0), Event(1, 0), Event(2, 0)])),
     DropSource(2, true), Op.Add(1, 1, true)]
  }

  ghost predicate Leftover(s: Scheduler)
    requires Shape(s)
  {
    && s.sources == map[3 := 2, 4 := 1]
    && s.entries.Keys == {0, 1, 2} && s.entries[1].pri == 1
    && s.queues[9] == [QueueEvent(1, 0, 2)] && s.queues[10] == [] && s.queues[5] == [QueueEvent(2, 0, 3)]
  }

  function Joining(entries: map<nat, Entry>, ev: Event, level: nat): seq<QueueEvent> {
    if ev.token in entries && entries[ev.token].pri == level
    then [QueueEvent(ev.token, ev.ready, entries[ev.token].reg)] else []
  }

  lemma AtLevelThree(entries: map<nat, Entry>, evs: seq<Event>, level: nat)
    requires |evs| == 3
    ensures AtLevel(entries, evs, level)
            == Joining(entries, evs[0], level) + Joining(entries, evs[1], level) + Joining(entries, evs[2], level)
  {
    assert evs[..2][..1] == evs[..1] && evs[..1][..0] == [];
    assert AtLevel(entries, [], level) == [];
    assert AtLevel(entries, evs[..1], level) == Joining(entries, evs[0], level);
    assert AtLevel(entries, evs[..2], level) == Joining(entries, evs[0], level) + Joining(entries, evs[1], level);
  }

  /** The poll of that run queues what the two sources are owed. */
  lemma LeftoverPoll(s: Scheduler, evs: seq<Event>)
    requires Shape(s) && evs == [Event(0, 0), Event(1, 0), Event(2, 0)]
    requires s.entries.Keys == {0, 1, 2} && s.entries[0].pri == 10
    requires s.entries[1] == Entry(9, 2) && s.entries[2] == Entry(5, 3)
    requires forall l :: 0 <= l < LEVELS ==> s.queues[l] == []
    ensures var r := PollStep(s, evs);
            && (r.entries, r.sources, r.nextReg) == (s.entries, s.sources, s.nextReg)
            && r.queues[9] == [QueueEvent(1, 0, 2)] && r.queues[10] == [] && r.queues[5] == [QueueEvent(2, 0, 3)]
  {
    hide PollStep, Step, LiveAt, CallsDue, Dispose, AtLevel;
    var t := PollCalls(s, evs);
    StepIsPoll(s, evs);
    WakerIsLive(s, evs);
    assert t == 10;
    AtLevelThree(s.entries, evs, 9);
    AtLevelThree(s.entries, evs, 5);
    assert [] + [QueueEvent(1, 0, 2)] == [QueueEvent(1, 0, 2)] && [] + [QueueEvent(2, 0, 3)] == [QueueEvent(2, 0, 3)];
  }

  lemma WakerIsLive(s: Scheduler, evs: seq<Event>)
    requires Shape(s) && evs != [] && evs[0].token == 0 && 0 in s.entries && s.entries[0].pri == 10
    ensures LiveAt(s, evs, 10)
  {
  }

  lemma LeftoverRunReaches()
    ensures AllowedRun(Start(10), LeftoverRun()) && Leftover(Reached(10, LeftoverRun()))
  {
    hide PollStep;
    var ops := LeftoverRun();
    var s0 := Start(10);
    var s1 := AddStep(s0, 9, 1, true);
    var s2 := AddStep(s1, 5, 2, true);
    LeftoverPoll(s2, ops[2].events.value);
    var s3 := PollStep(s2, ops[2].events.value);
    var s4 := DropStep(s3, 2, true);
    var s5 := AddStep(s4, 1, 1, true);
    RunFive(s0, ops);
    assert Leftover(s5);
  }

  /** A run of five operations, one by one. */
  lemma RunFive(s: Scheduler, ops: seq<Op>)
    requires Shape(s) && |ops| == 5
    requires Allowed(s, ops[0])
    requires var s1 := Step(s, ops[0]);
             && Allowed(s1, ops[1])
             && var s2 := Step(s1, ops[1]);
                && Allowed(s2, ops[2])
                && var s3 := Step(s2, ops[2]);
                   && Allowed(s3, ops[3])
                   && var s4 := Step(s3, ops[3]);
                      Allowed(s4, ops[4])
    ensures AllowedRun(s, ops)
    ensures Run(s, ops) == Step(Step(Step(Step(Step(s, ops[0]), ops[1]), ops[2]), ops[3]), ops[4])
  {
    hide Step, Allowed;
    assert ops[1..][1..] == ops[2..] && ops[2..][1..] == ops[3..] && ops[3..][1..] == ops[4..] && ops[4..][1..] == [];
    var s1 := Step(s, ops[0]);
    var s2 := Step(s1, ops[1]);
    var s3 := Step(s2, ops[2]);
    var s4 := Step(s3, ops[3]);
    assert AllowedRun(s4, ops[4..]) && Run(s4, ops[4..]) == Step(s4, ops[4]);
    assert AllowedRun(s3, ops[3..]) && Run(s3, ops[3..]) == Step(s4, ops[4]);
    assert AllowedRun(s2, ops[2..]) && Run(s2, ops[2..]) == Step(s4, ops[4]);
    assert AllowedRun(s1, ops[1..]) && Run(s1, ops[1..]) == Step(s4, ops[4]);
  }

  /** On that run a handler of priority 1 is called while an event waits for one of priority 5. */
  lemma LeftoverIsCalledFirst() returns (ops: seq<Op>)
    ensures AllowedRun(Start(10), ops) && Priorities(10, ops) == [10, 10, 9, 5, 1]
    ensures var s := Reached(10, ops);
            3 in s.sources && 4 in s.sources && WaitsFor(s, [], 3) && IsCalled(s, [], 4)
  {
    hide Reached, PollStep, LiveAt, AllowedRun, Priorities, Start, LeftoverRun, Leftover, WaitsFor, Shape;
    ops := LeftoverRun();
    LeftoverRunReaches();
    LeftoverPriorities();
    var s := Reached(10, ops);
    LeftoverState(s);
    var t := LowerCalledIff(10, ops, [], 3, 4);
    assert t == 9;
  }

  lemma LeftoverState(s: Scheduler)
    requires Shape(s) && Leftover(s)
    ensures 3 in s.sources && 4 in s.sources && WaitsFor(s, [], 3)
    ensures LiveAt(s, [], 9) && !LiveAt(s, [], 10)
    ensures exists i :: 0 <= i < |s.queues[9]| && s.queues[9][i].token == s.sources[4]
  {
    assert s.queues[5][0].origin == 3;
    assert s.queues[9][0].token == 1;
  }

  lemma LeftoverPriorities()
    ensures Priorities(10, LeftoverRun()) == [10, 10, 9, 5, 1]
  {
    var ops := LeftoverRun();
    assert ops[1..][1..] == ops[2..] && ops[2..][1..] == ops[3..] && ops[3..][1..] == ops[4..] && ops[4..][1..] == [];
    assert Asked(10, ops[4..]) == [1];
    assert Asked(10, ops[3..]) == [1];
    assert Asked(10, ops[2..]) == [1];
    assert Asked(10, ops[1..]) == [5, 1];
  }
}
