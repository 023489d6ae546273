/**
 The event scheduler as implemented: ten queues, a counter of queued events, the highest
 priority in use and a bitmap of the priorities in use.  Every method is proved to do what
 the reference scheduler does.
 */
module Control {

  import opened Common
  import opened Bitmap
  import opened Scheduler
  import opened SchedulerInvariant

  /** The number of events in the first `n` queues. */
  ghost function QueuedBelow(queues: seq<seq<QueueEvent>>, n: nat): nat
    requires n <= |queues|
  {
    if n == 0 then 0 else QueuedBelow(queues, n - 1) + |queues[n - 1]|
  }

  lemma {:induction false} QueuedBelowPush(queues: seq<seq<QueueEvent>>, i: nat, e: QueueEvent, n: nat)
    requires i < |queues| && n <= |queues|
    ensures QueuedBelow(queues[i := queues[i] + [e]], n) == QueuedBelow(queues, n) + if i < n then 1 else 0
  {
    if n != 0 {
      QueuedBelowPush(queues, i, e, n - 1);
    }
  }

  lemma {:induction false} QueuedBelowSame(a: seq<seq<QueueEvent>>, b: seq<seq<QueueEvent>>, n: nat)
    requires n <= |a| && n <= |b| && forall l :: 0 <= l < n ==> a[l] == b[l]
    ensures QueuedBelow(a, n) == QueuedBelow(b, n)
  {
    if n != 0 {
      QueuedBelowSame(a, b, n - 1);
    }
  }

  lemma {:induction false} QueuedBelowEmpty(queues: seq<seq<QueueEvent>>, n: nat)
    requires n <= |queues|
    ensures QueuedBelow(queues, n) == 0 <==> forall l :: 0 <= l < n ==> queues[l] == []
  {
    if n != 0 {
      QueuedBelowEmpty(queues, n - 1);
    }
  }

  lemma {:induction false} QueuedBelowTail(queues: seq<seq<QueueEvent>>, i: nat, n: nat)
    requires i <= n <= |queues| && forall l :: i <= l < n ==> queues[l] == []
    ensures QueuedBelow(queues, n) == QueuedBelow(queues, i)
  {
    if i < n {
      QueuedBelowTail(queues, i, n - 1);
    }
  }

  /** Draining an empty level changes nothing. */
  lemma DrainEmpty(s: Scheduler, level: nat)
    requires Shape(s) && level < LEVELS && s.queues[level] == []
    ensures Drain(s, level) == s && Deliver(s.entries, level, s.queues[level]) == []
  {
    assert s.queues[level := []] == s.queues;
    assert s.handled[level] + [] == s.handled[level];
    assert s.handled[level := s.handled[level]] == s.handled;
    assert s.calls + [] == s.calls;
  }

  lemma {:induction false} ServeSkipsEmpty(s: Scheduler, top: nat, lower: nat)
    requires Shape(s) && lower <= top <= LEVELS && forall l :: lower <= l < top ==> s.queues[l] == []
    ensures Serve(s, top) == Serve(s, lower)
    decreases top
  {
    if lower < top {
      DrainEmpty(s, top - 1);
      ServeSkipsEmpty(s, top - 1, lower);
    }
  }

  /** One reported event, when events at level `top` go straight to their handlers. */
  ghost function Dispatched(s: Scheduler, ev: Event, top: nat): (r: Scheduler)
    requires Shape(s) && top < LEVELS
    ensures Shape(r)
  {
    if ev.token !in s.entries then s else
      var entry := s.entries[ev.token];
      var qev := QueueEvent(ev.token, ev.ready, entry.reg);
      var a := s.(accepted := s.accepted[entry.pri := s.accepted[entry.pri] + [qev]]);
      if entry.pri == top then
        a.(handled := a.handled[top := a.handled[top] + [Handled(qev, Some(entry.reg))]],
           calls := a.calls + [Call(entry.reg, ev.ready, qev.origin, ev.token, top, entry.pri)])
      else
        a.(queues := a.queues[entry.pri := a.queues[entry.pri] + [qev]])
  }

  /** Dispatching an event amounts to queueing it before level `top` is drained. */
  lemma DispatchedStep(a: Scheduler, ev: Event, top: nat)
    requires Shape(a) && top < LEVELS
    ensures Dispatched(Drain(a, top), ev, top) == Drain(AcceptOne(a, ev), top)
  {
    if ev.token in a.entries {
      var entry := a.entries[ev.token];
      var q, qev := a.queues[top], QueueEvent(ev.token, ev.ready, entry.reg);
      assert (q + [qev])[..|q|] == q;
      var d, r := Dispatched(Drain(a, top), ev, top), Drain(AcceptOne(a, ev), top);
      assert d.queues == r.queues;
      assert forall l :: 0 <= l < LEVELS ==> d.handled[l] == r.handled[l];
      assert d.handled == r.handled;
    }
  }

  // ---------------------------------------------------------------- the counters

  /** The high-water mark and the bitmap describe the levels in use, and a queue holds events only
      if its level is in use and is not the highest in use: ten queues suffice, and the bitmap
      never hides work. */
  ghost predicate Indexed(m: Scheduler, maxPri: nat, priorities: bv16)
    requires Shape(m)
  {
    && maxPri < LEVELS
    && maxPri in m.levels
    && (forall l :: l in m.levels ==> l <= maxPri)
    && InBitmap(priorities, m.levels)
    && WAKER_TOKEN in m.entries
    && (forall t :: t in m.entries ==> m.entries[t].pri in m.levels)
    && (forall l :: 0 <= l < LEVELS && m.queues[l] != [] ==> l in m.levels && l < maxPri)
  }

  ghost predicate InBitmap(priorities: bv16, levels: set<nat>) {
    forall l :: 0 <= l < WIDTH ==> (Has(priorities, l) <==> l in levels)
  }

  lemma AddToBitmap(priorities: bv16, levels: set<nat>, level: nat)
    requires level < WIDTH && InBitmap(priorities, levels)
    ensures InBitmap(With(priorities, level), levels + {level})
  {
    hide Has, Bit, With;
    forall l | 0 <= l < WIDTH
      ensures Has(With(priorities, level), l) <==> l in levels + {level}
    {
      SetBit(priorities, level, l);
    }
  }

  ghost predicate Tracked(m: Scheduler, nQueued: nat, maxPri: nat, priorities: bv16) {
    Shape(m) && Indexed(m, maxPri, priorities) && nQueued == QueuedBelow(m.queues, |m.queues|)
  }

  lemma StartTracked(m: Scheduler, pri: nat)
    requires Shape(m) && pri < LEVELS && m.levels == {pri} && WAKER_TOKEN in m.entries
    requires forall t :: t in m.entries ==> m.entries[t].pri == pri
    requires forall l :: 0 <= l < LEVELS ==> m.queues[l] == []
    ensures Tracked(m, 0, pri, Bit(pri))
  {
    QueuedBelowEmpty(m.queues, LEVELS);
    forall l | 0 <= l < WIDTH
      ensures Has(Bit(pri), l) <==> l in m.levels
    {
      SingleBit(pri, l);
    }
    assert InBitmap(Bit(pri), m.levels);
  }

  lemma AddTracked(m: Scheduler, nQueued: nat, maxPri: nat, priorities: bv16, pri: nat, slot: nat, registered: bool)
    requires Tracked(m, nQueued, maxPri, priorities)
    ensures var level := Clamp(pri);
            Tracked(AddStep(m, pri, slot, registered), nQueued,
                    if level > maxPri then level else maxPri, With(priorities, level))
  {
    hide InBitmap, With;
    AddToBitmap(priorities, m.levels, Clamp(pri));
  }

  lemma DispatchedTracked(m: Scheduler, nQueued: nat, maxPri: nat, priorities: bv16, ev: Event)
    requires Tracked(m, nQueued, maxPri, priorities)
    ensures Tracked(Dispatched(m, ev, maxPri),
                    if ev.token in m.entries && m.entries[ev.token].pri != maxPri then nQueued + 1 else nQueued,
                    maxPri, priorities)
  {
    if ev.token in m.entries && m.entries[ev.token].pri != maxPri {
      var entry := m.entries[ev.token];
      QueuedBelowPush(m.queues, entry.pri, QueueEvent(ev.token, ev.ready, entry.reg), LEVELS);
    }
  }

  lemma EmptyFromTop(m: Scheduler, maxPri: nat, priorities: bv16)
    requires Shape(m) && Indexed(m, maxPri, priorities)
    ensures maxPri < LEVELS && forall l :: maxPri <= l < LEVELS ==> m.queues[l] == []
  {
  }

  lemma ServeOne(m: Scheduler, level: nat)
    requires Shape(m) && level < LEVELS
    ensures var d := Drain(m, level);
            Serve(m, level + 1) == if |d.calls| > |m.calls| then d else Serve(d, level)
    ensures |Drain(m, level).calls| >= |m.calls|
  {
  }

  lemma ServeNone(m: Scheduler)
    requires Shape(m)
    ensures Serve(m, 0) == m
  {
  }

  lemma ServeNothing(m: Scheduler, top: nat)
    requires Shape(m) && top <= LEVELS && QueuedBelow(m.queues, LEVELS) == 0
    ensures Serve(m, top) == m
  {
    QueuedBelowEmpty(m.queues, LEVELS);
    ServeSkipsEmpty(m, top, 0);
  }

  lemma DropTracked(m: Scheduler, nQueued: nat, maxPri: nat, priorities: bv16, reg: nat, deregistered: bool)
    requires Tracked(m, nQueued, maxPri, priorities)
    requires reg in m.sources && m.sources[reg] != WAKER_TOKEN
    ensures Tracked(DropStep(m, reg, deregistered), nQueued, maxPri, priorities)
  {
    hide InBitmap;
  }

  /** The bitmap never hides work: a level that it does not hold is empty. */
  lemma SkippedIsEmpty(m: Scheduler, maxPri: nat, priorities: bv16, i: nat)
    requires Shape(m) && Indexed(m, maxPri, priorities) && i < LEVELS && !Has(priorities, i)
    ensures m.queues[i] == []
  {
  }

  lemma PendingExact(m: Scheduler)
    requires Shape(m)
    ensures QueuedBelow(m.queues, LEVELS) > 0 <==> Pending(m)
  {
    QueuedBelowEmpty(m.queues, LEVELS);
  }

  class Control {
    var tokenMap: map<nat, Entry>
    const queues: array<seq<QueueEvent>>
    var nQueued: nat
    var maxPri: nat
    var priorities: bv16
    var errors: seq<DelError>

    // The environment: handler identities handed out so far, and the log of handler calls
    var nextReg: nat
    var calls: seq<Call>

    // History
    ghost var sources: map<nat, nat>
    ghost var slots: seq<nat>
    ghost var levels: set<nat>
    ghost var accepted: seq<seq<QueueEvent>>
    ghost var handled: seq<seq<Handled>>

    /** The state as the reference scheduler sees it: the highest level's queue is always empty. */
    ghost function Model(): Scheduler
      reads this, queues
    {
      Scheduler(tokenMap, queues[..] + [[]], sources, nextReg, slots, levels, errors, accepted, handled, calls)
    }

    ghost predicate Valid()
      reads this, queues
    {
      queues.Length == MAX_PRI && Tracked(Model(), nQueued, maxPri, priorities)
    }

    constructor (wakerPri: nat)
      ensures Valid() && fresh(queues)
      ensures Model() == Start(wakerPri)
    {
      var pri := Clamp(wakerPri);
      tokenMap := map[WAKER_TOKEN := Entry(pri, 0)];
      queues := new seq<QueueEvent>[MAX_PRI](_ => []);
      nQueued := 0;
      maxPri := pri;
      priorities := Bit(pri);
      errors := [];
      nextReg := 1;
      calls := [];
      sources := map[];
      slots := [WAKER_TOKEN];
      levels := {pri};
      accepted := seq(LEVELS, _ => []);
      handled := seq(LEVELS, _ => []);
      new;
      StartTracked(Model(), pri);
      SetWakeFwd();
      assert Model().queues == Start(wakerPri).queues;
    }

    method SetWakeFwd()
      requires Valid()
      modifies this`tokenMap, this`nextReg, this`slots
      ensures Valid()
      ensures Model() == SetWakeFwdStep(old(Model()))
      ensures sources == old(sources)
    {
      tokenMap := tokenMap[WAKER_TOKEN := Entry(tokenMap[WAKER_TOKEN].pri, nextReg)];
      nextReg := nextReg + 1;
      slots := slots + [WAKER_TOKEN];
    }

    /** Puts an entry into the slab. */
    method Insert(level: nat, slot: nat, ghost registered: bool)
      requires queues.Length == MAX_PRI && Shape(Model()) && level < LEVELS
      modifies this`tokenMap, this`nextReg, this`slots, this`levels, this`sources
      ensures Model() == AddStep(old(Model()), level, slot, registered)
    {
      tokenMap := tokenMap[slot := Entry(level, nextReg)];
      levels := levels + {level};
      sources := if registered then sources[nextReg := slot] else sources;
      slots := slots + [slot];
      nextReg := nextReg + 1;
    }

    /** Registers a source.  `slot` is the key the slab hands out, `registered` mio's answer. */
    method Add(pri: nat, slot: nat, registered: bool) returns (out: Outcome)
      requires Valid() && slot !in tokenMap
      modifies this
      ensures Valid()
      ensures Model() == AddStep(old(Model()), pri, slot, registered)
      ensures out == if registered then Added(slot) else AddFailed
    {
      hide Indexed, Has, Bit, With;
      AddTracked(Model(), nQueued, maxPri, priorities, pri, slot, registered);
      var level := Clamp(pri);
      maxPri := if level > maxPri then level else maxPri;
      priorities := With(priorities, level);
      Insert(level, slot, registered);
      out := if registered then Added(slot) else AddFailed;
    }

    /** Unregisters a token; an unknown one is an error, unless deregistering failed already. */
    method Del(token: nat, deregistered: bool) returns (error: Option<DelError>)
      modifies this`tokenMap
      ensures error == DelResult(token in old(tokenMap), deregistered)
      ensures error == None <==> token in old(tokenMap) && deregistered
      ensures error == Some(NotFound) <==> token !in old(tokenMap) && deregistered
      ensures tokenMap == old(tokenMap) - {token}
    {
      var rv := if deregistered then None else Some(DeregisterFailed);
      if token in tokenMap {
        tokenMap := tokenMap - {token};
        return rv;
      }
      return if rv.None? then Some(NotFound) else rv;
    }

    /** Drops a MioSource: it unregisters its token and keeps any error. */
    method DropSource(reg: nat, token: nat, deregistered: bool) returns (out: Outcome)
      requires Valid() && reg in sources && sources[reg] == token && token != WAKER_TOKEN
      modifies this
      ensures Valid()
      ensures Model() == DropStep(old(Model()), reg, deregistered)
      ensures out == Dropped(DelResult(token in old(tokenMap), deregistered))
    {
      hide Indexed;
      ghost var r := DropStep(Model(), reg, deregistered);
      DropTracked(Model(), nQueued, maxPri, priorities, reg, deregistered);
      var error := Del(token, deregistered);
      if error.Some? {
        errors := errors + [error.value];
      }
      sources := sources - {reg};
      out := Dropped(error);
      assert Model() == r;
    }

    /** One event of the first loop of a poll: at the highest priority it goes straight to its
        handler, otherwise it is queued. */
    method Dispatch(ev: Event) returns (done: bool)
      requires Valid()
      modifies this`calls, this`handled, this`accepted, this`nQueued, queues
      ensures Valid()
      ensures Model() == Dispatched(old(Model()), ev, maxPri)
      ensures if done then |calls| > |old(calls)| else calls == old(calls)
    {
      done := false;
      ghost var m := Model();
      DispatchedTracked(m, nQueued, maxPri, priorities, ev);
      if ev.token in tokenMap {
        var entry := tokenMap[ev.token];
        var qev := QueueEvent(ev.token, ev.ready, entry.reg);
        accepted := accepted[entry.pri := accepted[entry.pri] + [qev]];
        if entry.pri == maxPri {
          done := true;
          calls := calls + [Call(entry.reg, ev.ready, qev.origin, ev.token, maxPri, entry.pri)];
          handled := handled[maxPri := handled[maxPri] + [Handled(qev, Some(entry.reg))]];
        } else {
          assert m.queues[entry.pri] == queues[entry.pri];
          queues[entry.pri] := queues[entry.pri] + [qev];
          assert Model().queues == m.queues[entry.pri := m.queues[entry.pri] + [qev]];
          nQueued := nQueued + 1;
        }
      }
      assert Model() == Dispatched(m, ev, maxPri);
    }

    /** The first loop of a poll. */
    method FastPath(evs: seq<Event>) returns (done: bool)
      requires Valid()
      modifies this`calls, this`handled, this`accepted, this`nQueued, queues
      ensures Valid()
      ensures Model() == Drain(Accept(old(Model()), evs), maxPri)
      ensures if done then |calls| > |old(calls)| else |calls| == |old(calls)|
    {
      hide InBitmap, Dispatched, AcceptOne;
      done := false;
      ghost var s := Model();
      assert s.queues[maxPri] == [];
      DrainEmpty(s, maxPri);
      for n := 0 to |evs|
        invariant Valid()
        invariant Model() == Drain(Accept(s, evs[..n]), maxPri)
        invariant if done then |calls| > |s.calls| else |calls| == |s.calls|
      {
        DispatchedStep(Accept(s, evs[..n]), evs[n], maxPri);
        assert evs[..n + 1][..n] == evs[..n];
        var called := Dispatch(evs[n]);
        done := done || called;
      }
      assert evs[..|evs|] == evs;
    }

    /** Empties one queue, calling the handlers of the tokens still registered. */
    method DrainLevel(i: nat) returns (done: bool)
      requires queues.Length == MAX_PRI && Shape(Model()) && i < MAX_PRI
      modifies this`calls, this`handled, queues
      ensures Model() == Drain(old(Model()), i)
      ensures done <==> |calls| > |old(calls)|
    {
      done := false;
      ghost var m := Model();
      var qu := queues[i];
      assert m.queues[i] == qu;
      assert m.handled[i] + [] == m.handled[i];
      for j := 0 to |qu|
        invariant calls == m.calls + Deliver(tokenMap, i, qu[..j])
        invariant |handled| == LEVELS && handled == m.handled[i := handled[i]]
        invariant handled[i] == m.handled[i] + Dispose(tokenMap, qu[..j])
        invariant done <==> |calls| > |m.calls|
        invariant queues[..] == old(queues[..])
      {
        assert qu[..j + 1][..j] == qu[..j];
        var qev := qu[j];
        var target := None;
        if qev.token in tokenMap {
          done := true;
          var entry := tokenMap[qev.token];
          calls := calls + [Call(entry.reg, qev.ready, qev.origin, qev.token, i, entry.pri)];
          target := Some(entry.reg);
        }
        handled := handled[i := handled[i] + [Handled(qev, target)]];
      }
      assert qu[..|qu|] == qu;
      queues[i] := [];
      assert Model().queues == m.queues[i := []];
    }

    /** One level of the second loop of a poll. */
    method ServeLevel(i: nat, served: bool) returns (done: bool)
      requires queues.Length == MAX_PRI && Shape(Model()) && Indexed(Model(), maxPri, priorities) && i < maxPri
      requires nQueued + QueuedBelow(Model().queues, i + 1) == QueuedBelow(Model().queues, LEVELS)
      requires !served ==> nQueued == 0
      modifies this`calls, this`handled, this`nQueued, queues
      ensures Shape(Model()) && Indexed(Model(), maxPri, priorities)
      ensures nQueued + QueuedBelow(Model().queues, i) == QueuedBelow(Model().queues, LEVELS)
      ensures served ==> done && Model() == old(Model())
      ensures !served ==> Model() == Drain(old(Model()), i)
      ensures !served ==> (done <==> |calls| > |old(calls)|) && nQueued == 0
    {
      hide InBitmap, Has;
      done := served;
      ghost var m := Model();
      assert m.queues[i] == queues[i];
      if Has(priorities, i) && queues[i] != [] {
        if !done {
          QueuedBelowSame(m.queues, m.queues[i := []], i);
          QueuedBelowSkip(m.queues, i, LEVELS);
          done := DrainLevel(i);
        } else {
          nQueued := nQueued + |queues[i]|;
        }
      } else {
        if !Has(priorities, i) {
          SkippedIsEmpty(m, maxPri, priorities, i);
        }
        if !done {
          DrainEmpty(m, i);
        }
      }
    }

    /** The second loop of a poll: serve the highest level with a live event, recount the rest. */
    method SlowPath() returns (done: bool)
      requires queues.Length == MAX_PRI && Shape(Model()) && Indexed(Model(), maxPri, priorities)
      modifies this`calls, this`handled, this`nQueued, queues
      ensures Valid()
      ensures Model() == Serve(old(Model()), maxPri)
      ensures if done then |calls| > |old(calls)| else |calls| == |old(calls)|
    {
      hide Indexed, Serve, Drain;
      done := false;
      nQueued := 0;
      ghost var m := Model();
      var i: nat := maxPri;
      EmptyFromTop(m, maxPri, priorities);
      QueuedBelowTail(m.queues, i, LEVELS);
      while i > 0
        invariant i <= maxPri
        invariant Shape(Model()) && Indexed(Model(), maxPri, priorities)
        invariant nQueued + QueuedBelow(Model().queues, i) == QueuedBelow(Model().queues, LEVELS)
        invariant done ==> Model() == Serve(m, maxPri) && |calls| > |m.calls|
        invariant !done ==> Serve(Model(), i) == Serve(m, maxPri) && nQueued == 0 && |calls| == |m.calls|
      {
        i := i - 1;
        ServeOne(Model(), i);
        done := ServeLevel(i, done);
      }
      ServeNone(Model());
    }

    /** A poll.  `outcome` is what mio reports: the events, or None for an error. */
    method Poll(outcome: Option<seq<Event>>) returns (out: Outcome)
      requires Valid()
      modifies this, queues
      ensures Valid()
      ensures sources == old(sources)
      ensures outcome.None? ==> Model() == old(Model()) && out == PollFailed
      ensures outcome.Some? ==> Model() == PollStep(old(Model()), outcome.value)
      ensures outcome.Some? ==> out == PollOutput(old(Model()), outcome.value)
    {
      hide InBitmap, Serve, Drain, Accept, PollStep, Pending;
      if outcome.None? {
        return PollFailed;
      }
      ghost var s := Model();
      PollFromTop(s, outcome.value, maxPri);
      var done := FastPath(outcome.value);
      ghost var d := Model();
      if !done && nQueued > 0 {
        done := SlowPath();
      } else if !done {
        ServeNothing(d, maxPri);
      }
      PendingExact(Model());
      out := Polled(done, nQueued > 0);
    }
  }

  lemma {:induction false} QueuedBelowSkip(queues: seq<seq<QueueEvent>>, i: nat, n: nat)
    requires i < n <= |queues|
    ensures QueuedBelow(queues[i := []], n) == QueuedBelow(queues, n) - |queues[i]|
  {
    if n == i + 1 {
      QueuedBelowSame(queues, queues[i := []], i);
    } else {
      QueuedBelowSkip(queues, i, n - 1);
    }
  }

  lemma AboveTopEmpty(s: Scheduler, evs: seq<Event>, top: nat)
    requires Shape(s) && top < LEVELS
    requires forall t :: t in s.entries ==> s.entries[t].pri <= top
    requires forall l :: top <= l < LEVELS ==> s.queues[l] == []
    ensures forall l :: top < l < LEVELS ==> Accept(s, evs).queues[l] == []
  {
    AcceptAppends(s, evs);
    forall l | top < l < LEVELS
      ensures Accept(s, evs).queues[l] == []
    {
      NothingAtLevel(s.entries, evs, l);
    }
  }

  lemma {:induction false} NothingAtLevel(entries: map<nat, Entry>, evs: seq<Event>, level: nat)
    requires forall t :: t in entries ==> entries[t].pri != level
    ensures AtLevel(entries, evs, level) == []
  {
    if evs != [] {
      NothingAtLevel(entries, evs[..|evs| - 1], level);
    }
  }

  /** A poll serves the highest level, and goes on only if that called no handler. */
  lemma PollFromTop(s: Scheduler, evs: seq<Event>, top: nat)
    requires Shape(s) && top < LEVELS
    requires forall t :: t in s.entries ==> s.entries[t].pri <= top
    requires forall l :: top <= l < LEVELS ==> s.queues[l] == []
    ensures var d := Drain(Accept(s, evs), top);
            PollStep(s, evs) == if |d.calls| > |s.calls| then d else Serve(d, top)
  {
    AboveTopEmpty(s, evs, top);
    ServeSkipsEmpty(Accept(s, evs), LEVELS, top + 1);
  }

  /** On every run the implementation makes the handler calls of the reference scheduler, in the
      same order, and returns the same results. */
  method RunControl(wakerPri: nat, ops: seq<Op>) returns (outs: seq<Outcome>, calls: seq<Call>)
    requires AllowedRun(Start(wakerPri), ops)
    ensures outs == Outputs(Start(wakerPri), ops)
    ensures calls == Run(Start(wakerPri), ops).calls
  {
    hide Step, Output, Outputs, Run, AllowedRun, Start, EventsInv, TopEmpty, CallsInv, HistoryInv, Tracked;
    var c := new Control(wakerPri);
    ghost var s := Start(wakerPri);
    assert ops[0..] == ops;
    StartEmpty(wakerPri);
    StartInv(wakerPri);
    outs := [];
    var held: map<nat, nat> := map[];
    var n := 0;
    while n < |ops|
      invariant n <= |ops|
      invariant c.Valid() && fresh(c) && fresh(c.queues)
      invariant c.sources == held && Inv(c.Model())
      invariant AllowedRun(c.Model(), ops[n..])
      invariant Run(c.Model(), ops[n..]) == Run(s, ops)
      invariant outs + Outputs(c.Model(), ops[n..]) == Outputs(s, ops)
    {
      RunStep(c.Model(), ops, n);
      StepInv(c.Model(), ops[n]);
      var out: Outcome;
      out, held := Perform(c, ops[n], held);
      Regroup(outs, out, Outputs(c.Model(), ops[n + 1..]));
      outs := outs + [out];
      n := n + 1;
    }
    RunEnd(c.Model());
    assert ops[n..] == [];
    calls := c.calls;
  }

  lemma RunEnd(s: Scheduler)
    requires Shape(s)
    ensures AllowedRun(s, []) && Run(s, []) == s && Outputs(s, []) == []
  {
  }

  lemma StartEmpty(wakerPri: nat)
    ensures Start(wakerPri).sources == map[]
  {
  }

  lemma Regroup(a: seq<Outcome>, x: Outcome, b: seq<Outcome>)
    ensures a + ([x] + b) == a + [x] + b
  {
  }

  lemma RunStep(s: Scheduler, ops: seq<Op>, n: nat)
    requires Shape(s) && n < |ops| && AllowedRun(s, ops[n..])
    ensures Allowed(s, ops[n]) && AllowedRun(Step(s, ops[n]), ops[n + 1..])
    ensures Run(s, ops[n..]) == Run(Step(s, ops[n]), ops[n + 1..])
    ensures Outputs(s, ops[n..]) == [Output(s, ops[n])] + Outputs(Step(s, ops[n]), ops[n + 1..])
  {
    assert ops[n..][0] == ops[n] && ops[n..][1..] == ops[n + 1..];
  }

  /** One call on the public interface.  `held` are the MioSource values the application owns. */
  method Perform(c: Control, op: Op, held: map<nat, nat>) returns (out: Outcome, held': map<nat, nat>)
    requires c.Valid() && c.sources == held && Allowed(c.Model(), op) && RegistrationsInv(c.Model())
    modifies c, c.queues
    ensures c.Valid() && c.sources == held'
    ensures c.Model() == Step(old(c.Model()), op)
    ensures out == Output(old(c.Model()), op)
  {
    hide PollStep, PollOutput, Tracked;
    held' := held;
    match op {
      case Add(pri, slot, registered) =>
        held' := if registered then held[c.nextReg := slot] else held;
        out := c.Add(pri, slot, registered);
      case DropSource(reg, deregistered) =>
        held' := held - {reg};
        out := c.DropSource(reg, held[reg], deregistered);
      case SetWakeFwd =>
        c.SetWakeFwd();
        out := WakeFwdSet;
      case Poll(outcome) =>
        out := c.Poll(outcome);
    }
  }
}
