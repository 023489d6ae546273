/**
 The reference scheduler: eleven queues and no counters.

 A poll puts every reported event whose token is registered into the queue of its
 priority level, then drains the levels from the top until one of them held an event
 for a token that is still registered.  The state also carries history: what was
 accepted at each level, what became of it, and the log of handler calls.
 */
module Scheduler {

  import opened Common

  const MAX_PRI: nat := 10
  const LEVELS: nat := 11
  const WAKER_TOKEN: nat := 0

  /** An event as mio reports it. */
  datatype Event = Event(token: nat, ready: nat)

  /** A slab entry.  `reg` identifies the handler: it is fresh for every registration. */
  datatype Entry = Entry(pri: nat, reg: nat)

  /** A queued event.  `origin` is history: the registration that held the slot when the
      event was accepted.  No scheduling decision reads it. */
  datatype QueueEvent = QueueEvent(token: nat, ready: nat, origin: nat)

  /** What became of an accepted event: the registration it was delivered to, or None if its
      token was no longer registered. */
  datatype Handled = Handled(event: QueueEvent, target: Option<nat>)

  /** One handler call: the registration called, for whose event and by which token, the level served
      and the entry's own priority. */
  datatype Call = Call(reg: nat, ready: nat, origin: nat, token: nat, level: nat, pri: nat)

  datatype DelError = NotFound | DeregisterFailed

  datatype Scheduler = Scheduler(
    entries: map<nat, Entry>,
    queues: seq<seq<QueueEvent>>,
    sources: map<nat, nat>,            // live MioSource values: registration -> token
    nextReg: nat,
    slots: seq<nat>,                   // the slot given to each registration
    levels: set<nat>,                  // every level ever registered
    errors: seq<DelError>,
    accepted: seq<seq<QueueEvent>>,
    handled: seq<seq<Handled>>,
    calls: seq<Call>)

  ghost predicate Shape(s: Scheduler) {
    && |s.queues| == |s.accepted| == |s.handled| == LEVELS
    && forall t :: t in s.entries ==> s.entries[t].pri < LEVELS
  }

  // ---------------------------------------------------------------- one poll

  /** The handler calls made by draining `q` at `level`. */
  function Deliver(entries: map<nat, Entry>, level: nat, q: seq<QueueEvent>): seq<Call> {
    if q == [] then [] else
      var e := q[|q| - 1];
      Deliver(entries, level, q[..|q| - 1]) +
      if e.token in entries
      then [Call(entries[e.token].reg, e.ready, e.origin, e.token, level, entries[e.token].pri)] else []
  }

  /** What becomes of the events of `q` when it is drained. */
  function Dispose(entries: map<nat, Entry>, q: seq<QueueEvent>): seq<Handled> {
    if q == [] then [] else
      var e := q[|q| - 1];
      Dispose(entries, q[..|q| - 1]) +
      [Handled(e, if e.token in entries then Some(entries[e.token].reg) else None)]
  }

  /** A reported event joins the queue of its level, unless its token is not registered. */
  ghost function AcceptOne(s: Scheduler, ev: Event): (r: Scheduler)
    requires Shape(s)
    ensures Shape(r)
  {
    if ev.token !in s.entries then s else
      var entry := s.entries[ev.token];
      var qev := QueueEvent(ev.token, ev.ready, entry.reg);
      s.(queues := s.queues[entry.pri := s.queues[entry.pri] + [qev]],
         accepted := s.accepted[entry.pri := s.accepted[entry.pri] + [qev]])
  }

  ghost function Accept(s: Scheduler, evs: seq<Event>): (r: Scheduler)
    requires Shape(s)
    ensures Shape(r) && r == s.(queues := r.queues, accepted := r.accepted)
  {
    if evs == [] then s else AcceptOne(Accept(s, evs[..|evs| - 1]), evs[|evs| - 1])
  }

  ghost function Drain(s: Scheduler, level: nat): (r: Scheduler)
    requires Shape(s) && level < LEVELS
    ensures Shape(r)
  {
    s.(queues := s.queues[level := []],
       handled := s.handled[level := s.handled[level] + Dispose(s.entries, s.queues[level])],
       calls := s.calls + Deliver(s.entries, level, s.queues[level]))
  }

  ghost function Serve(s: Scheduler, top: nat): (r: Scheduler)
    requires Shape(s) && top <= LEVELS
    ensures Shape(r)
    decreases top
  {
    if top == 0 then s else
      var d := Drain(s, top - 1);
      if |d.calls| > |s.calls| then d else Serve(d, top - 1)
  }

  ghost function PollStep(s: Scheduler, evs: seq<Event>): (r: Scheduler)
    requires Shape(s)
    ensures Shape(r)
  {
    var a := Accept(s, evs);
    Serve(a, |a.queues|)
  }

  ghost predicate Pending(s: Scheduler) {
    exists l :: 0 <= l < |s.queues| && s.queues[l] != []
  }

  // ---------------------------------------------------------------- whole runs

  /** One call on the public interface, with the answers of mio and of the slab. */
  datatype Op =
    | Add(pri: nat, slot: nat, registered: bool)
    | DropSource(reg: nat, deregistered: bool)
    | SetWakeFwd
    | Poll(events: Option<seq<Event>>)       // None: mio's poll failed

  datatype Outcome =
    | Added(token: nat)
    | AddFailed
    | Dropped(error: Option<DelError>)
    | WakeFwdSet
    | Polled(activity: bool, ioPending: bool)
    | PollFailed

  function Clamp(pri: nat): nat {
    if pri < MAX_PRI then pri else MAX_PRI
  }

  function DelResult(found: bool, deregistered: bool): Option<DelError> {
    if !deregistered then Some(DeregisterFailed) else if found then None else Some(NotFound)
  }

  /** The slab hands out an unused key, and only a live MioSource can be dropped. */
  ghost predicate Allowed(s: Scheduler, op: Op) {
    match op
    case Add(_, slot, _) => slot !in s.entries
    case DropSource(reg, _) => reg in s.sources
    case SetWakeFwd => WAKER_TOKEN in s.entries
    case Poll(_) => true
  }

  ghost function AddStep(s: Scheduler, pri: nat, slot: nat, registered: bool): (r: Scheduler)
    requires Shape(s)
    ensures Shape(r)
  {
    s.(entries := s.entries[slot := Entry(Clamp(pri), s.nextReg)],
       levels := s.levels + {Clamp(pri)},
       nextReg := s.nextReg + 1,
       slots := s.slots + [slot],
       sources := if registered then s.sources[s.nextReg := slot] else s.sources)
  }

  ghost function DropStep(s: Scheduler, reg: nat, deregistered: bool): (r: Scheduler)
    requires Shape(s) && reg in s.sources
    ensures Shape(r)
  {
    var token := s.sources[reg];
    var error := DelResult(token in s.entries, deregistered);
    s.(entries := s.entries - {token},
       sources := s.sources - {reg},
       errors := s.errors + if error.Some? then [error.value] else [])
  }

  ghost function SetWakeFwdStep(s: Scheduler): (r: Scheduler)
    requires Shape(s) && WAKER_TOKEN in s.entries
    ensures Shape(r)
  {
    s.(entries := s.entries[WAKER_TOKEN := Entry(s.entries[WAKER_TOKEN].pri, s.nextReg)],
       nextReg := s.nextReg + 1,
       slots := s.slots + [WAKER_TOKEN])
  }

  ghost function Step(s: Scheduler, op: Op): (r: Scheduler)
    requires Shape(s) && Allowed(s, op)
    ensures Shape(r)
  {
    match op
    case Add(pri, slot, registered) => AddStep(s, pri, slot, registered)
    case DropSource(reg, deregistered) => DropStep(s, reg, deregistered)
    case SetWakeFwd => SetWakeFwdStep(s)
    case Poll(None) => s
    case Poll(Some(evs)) => PollStep(s, evs)
  }

  /** What a successful poll returns: whether it called a handler, and whether events are left. */
  ghost function PollOutput(s: Scheduler, evs: seq<Event>): Outcome
    requires Shape(s)
  {
    Polled(|PollStep(s, evs).calls| > |s.calls|, Pending(PollStep(s, evs)))
  }

  ghost function Output(s: Scheduler, op: Op): Outcome
    requires Shape(s) && Allowed(s, op)
  {
    match op
    case Add(_, slot, registered) => if registered then Added(slot) else AddFailed
    case DropSource(reg, deregistered) => Dropped(DelResult(s.sources[reg] in s.entries, deregistered))
    case SetWakeFwd => WakeFwdSet
    case Poll(None) => PollFailed
    case Poll(Some(evs)) => PollOutput(s, evs)
  }

  ghost function Start(wakerPri: nat): (s: Scheduler)
    ensures Shape(s)
  {
    var empty := Scheduler(map[WAKER_TOKEN := Entry(Clamp(wakerPri), 0)], seq(LEVELS, _ => []),
                           map[], 1, [WAKER_TOKEN], {Clamp(wakerPri)}, [],
                           seq(LEVELS, _ => []), seq(LEVELS, _ => []), []);
    SetWakeFwdStep(empty)
  }

  ghost predicate AllowedRun(s: Scheduler, ops: seq<Op>)
    requires Shape(s)
    decreases ops
  {
    ops == [] || (Allowed(s, ops[0]) && AllowedRun(Step(s, ops[0]), ops[1..]))
  }

  ghost function Run(s: Scheduler, ops: seq<Op>): (r: Scheduler)
    requires Shape(s) && AllowedRun(s, ops)
    ensures Shape(r)
    decreases ops
  {
    if ops == [] then s else Run(Step(s, ops[0]), ops[1..])
  }

  ghost function Outputs(s: Scheduler, ops: seq<Op>): (r: seq<Outcome>)
    requires Shape(s) && AllowedRun(s, ops)
    ensures |r| == |ops|
    decreases ops
  {
    if ops == [] then [] else [Output(s, ops[0])] + Outputs(Step(s, ops[0]), ops[1..])
  }
}
