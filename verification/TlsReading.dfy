/**
 The loop that reads announced plaintext: which ends it signals, and when it comes to an end, in terms
 of the reader's answers and the room in the application's buffer.
 */
module TlsReading {

  import opened Common
  import opened Engine
  import opened TlsModel
  import opened TlsRuns
  import M = StreamModel

  /** The reader says that there is no more for now, or fails. */
  predicate Stops(r: Reply) {
    r.fault.WouldBlock? || r.fault.OtherFault?
  }

  function Amount(r: Reply): nat {
    if r.fault.NoFault? then |r.data| else 0
  }

  /** How much plaintext there is in the first `n` answers. */
  function HandedOut(script: seq<Reply>, n: nat): nat {
    if n == 0 || script == [] then 0 else Amount(script[0]) + HandedOut(script[1..], n - 1)
  }

  /** None of the first `n` answers ends the reading. */
  ghost predicate Unstopped(script: seq<Reply>, n: nat) {
    forall i :: 0 <= i < n && i < |script| ==> !Stops(script[i])
  }

  // ---------------------------------------------------------------- one read

  /** What one answer signals to a reader with `room` bytes. */
  function SignalsOf(r: Reply, room: nat): seq<Signal> {
    if r.fault.UnexpectedEof? then [UncleanEnd]
    else if !r.fault.NoFault? then []
    else if room == 0 then [NoRoom]
    else if r.data == [] then [CleanEnd] else []
  }

  /** The answers that remain after one read. */
  function Remaining(script: seq<Reply>, room: nat): seq<Reply> {
    var r := Answer(script, 0);
    if Amount(r) <= room then Later(script, 1) else [r.(data := r.data[room..])] + Later(script, 1)
  }

  function RoomLeft(script: seq<Reply>, room: nat): nat {
    var n := Amount(Answer(script, 0));
    if n <= room then room - n else 0
  }

  lemma ReadOneEffect(t: Tls, room: nat)
    ensures var (u, plain) := ReadOne(t, room);
            var r := Answer(t.e.script, 0);
            && u.e.script == Remaining(t.e.script, room)
            && u.e.signals == t.e.signals + SignalsOf(r, room)
            && u.inpEof == (if SignalsOf(r, room) == [] then t.inpEof else EndOf(SignalsOf(r, room)))
            && (plain.Empty? || plain.Broken? <==> Stops(r))
            && (plain.Data? ==> |plain.bytes| <= room && RoomLeft(t.e.script, room) == room - |plain.bytes|)
            && (plain.CutShort? ==> RoomLeft(t.e.script, room) == room)
  {
    hide M.TakeIn;
    assert t.e.Next() == Answer(t.e.script, 0);
    assert t.e.Rest().script == Later(t.e.script, 1);
  }

  lemma DrainStep(t: Tls, room: nat, fuel: nat)
    requires fuel > 0
    ensures var u := ReadOne(t, room).0;
            var r := DrainPlain(t, room, fuel);
            if Stops(Answer(t.e.script, 0)) then r.0 == u && r.1 != Some(Cut)
            else r == DrainPlain(u, RoomLeft(t.e.script, room), fuel - 1)
  {
    hide ReadOne, Stops, RoomLeft;
    ReadOneEffect(t, room);
  }

  // ---------------------------------------------------------------- the ends that are signalled

  /** The answer `r` makes a reader that began with `room` bytes signal `s`, when the answers before it
      held `before` bytes.  An answer that does not fit is held, and met without room by the next read,
      if there is an `again`. */
  predicate Gives(s: Signal, r: Reply, before: nat, room: nat, again: bool) {
    match s
    case NoRoom => r.fault.NoFault? && (before >= room || (again && before + |r.data| > room))
    case CleanEnd => r.fault.NoFault? && r.data == [] && before < room
    case UncleanEnd => r.fault.UnexpectedEof? && before <= room
  }

  ghost predicate GivenAt(s: Signal, script: seq<Reply>, room: nat, fuel: nat, i: nat) {
    i < fuel && Unstopped(script, i) && Gives(s, Answer(script, i), HandedOut(script, i), room, i + 1 < fuel)
  }

  /** Some answer before the one that ends the reading signals `s`, within `fuel` reads. */
  ghost predicate Signalled(s: Signal, script: seq<Reply>, room: nat, fuel: nat) {
    exists i: nat :: GivenAt(s, script, room, fuel, i)
  }

  lemma UnstoppedLater(script: seq<Reply>, n: nat)
    requires !Stops(Answer(script, 0))
    ensures Unstopped(script, n + 1) <==> Unstopped(Later(script, 1), n)
  {
    var rest := Later(script, 1);
    if Unstopped(script, n + 1) {
      assert forall i :: 0 <= i < |rest| ==> rest[i] == script[i + 1];
    } else {
      var i :| 0 <= i < n + 1 && i < |script| && Stops(script[i]);
      assert rest[i - 1] == script[i];
    }
  }

  lemma GivenLater(s: Signal, script: seq<Reply>, room: nat, fuel: nat, i: nat)
    requires fuel > 0 && !Stops(Answer(script, 0)) && Amount(Answer(script, 0)) <= room
    ensures GivenAt(s, script, room, fuel, i + 1)
            <==> GivenAt(s, Later(script, 1), room - Amount(Answer(script, 0)), fuel - 1, i)
  {
    hide Unstopped;
    UnstoppedLater(script, i);
    assert Answer(script, i + 1) == Answer(Later(script, 1), i);
  }

  /** The first answer fits: the others follow with the room that is left. */
  lemma SignalledFits(s: Signal, script: seq<Reply>, room: nat, fuel: nat)
    requires fuel > 0 && !Stops(Answer(script, 0)) && Amount(Answer(script, 0)) <= room
    ensures Signalled(s, script, room, fuel) <==>
              || s in SignalsOf(Answer(script, 0), room)
              || Signalled(s, Later(script, 1), room - Amount(Answer(script, 0)), fuel - 1)
  {
    hide GivenAt;
    var rest, left := Later(script, 1), room - Amount(Answer(script, 0));
    assert GivenAt(s, script, room, fuel, 0) <==> s in SignalsOf(Answer(script, 0), room) by {
      FirstGiven(s, script, room, fuel);
    }
    if i: nat :| GivenAt(s, script, room, fuel, i) {
      if i > 0 {
        GivenLater(s, script, room, fuel, i - 1);
      }
    }
    if Signalled(s, rest, left, fuel - 1) {
      var i: nat :| GivenAt(s, rest, left, fuel - 1, i);
      GivenLater(s, script, room, fuel, i);
    }
  }

  lemma FirstGiven(s: Signal, script: seq<Reply>, room: nat, fuel: nat)
    requires fuel > 0 && !Stops(Answer(script, 0)) && Amount(Answer(script, 0)) <= room
    ensures GivenAt(s, script, room, fuel, 0) <==> s in SignalsOf(Answer(script, 0), room)
  {
  }

  lemma HandedOutGrows(script: seq<Reply>, n: nat)
    requires n > 0
    ensures HandedOut(script, n) >= Amount(Answer(script, 0))
  {
  }

  /** The first answer does not fit: what is left of it is met without room for ever after. */
  lemma SignalledHeld(s: Signal, script: seq<Reply>, room: nat, fuel: nat)
    requires fuel > 0 && Amount(Answer(script, 0)) > room
    ensures Signalled(s, script, room, fuel) <==>
              || s in SignalsOf(Answer(script, 0), room)
              || Signalled(s, Remaining(script, room), 0, fuel - 1)
  {
    var held := Remaining(script, room);
    if s == NoRoom {
      assert GivenAt(s, script, room, fuel, 0) <==> room == 0 || fuel > 1;
      assert GivenAt(s, held, 0, fuel - 1, 0) <==> fuel > 1;
      OnlyHeld(s, script, room, fuel);
      OnlyHeld(s, held, 0, fuel - 1);
    } else {
      OnlyHeld(s, script, room, fuel);
      OnlyHeld(s, held, 0, fuel - 1);
    }
  }

  lemma OnlyHeld(s: Signal, script: seq<Reply>, room: nat, fuel: nat)
    requires Amount(Answer(script, 0)) > room
    ensures Signalled(s, script, room, fuel) <==> s == NoRoom && fuel > 0 && (room == 0 || fuel > 1)
  {
    if i: nat :| GivenAt(s, script, room, fuel, i) {
      if i > 0 {
        HandedOutGrows(script, i);
      }
    }
    if s == NoRoom && fuel > 0 && (room == 0 || fuel > 1) {
      assert GivenAt(s, script, room, fuel, 0);
    }
  }

  lemma SignalledStep(s: Signal, script: seq<Reply>, room: nat, fuel: nat)
    requires fuel > 0 && !Stops(Answer(script, 0))
    ensures Signalled(s, script, room, fuel) <==>
              || s in SignalsOf(Answer(script, 0), room)
              || Signalled(s, Remaining(script, room), RoomLeft(script, room), fuel - 1)
  {
    hide Signalled;
    if Amount(Answer(script, 0)) <= room {
      SignalledFits(s, script, room, fuel);
    } else {
      SignalledHeld(s, script, room, fuel);
    }
  }

  lemma StoppedIsSilent(s: Signal, script: seq<Reply>, room: nat, fuel: nat)
    requires fuel == 0 || Stops(Answer(script, 0))
    ensures !Signalled(s, script, room, fuel)
    ensures fuel > 0 ==> SignalsOf(Answer(script, 0), room) == []
  {
  }

  /** What reading plaintext into `room` bytes signals, for every reader: exactly what its answers come
      to, and the state of the input becomes what was signalled last. */
  lemma {:induction false} DrainSignals(t: Tls, room: nat, fuel: nat)
    ensures var u := DrainPlain(t, room, fuel).0;
            && t.e.signals <= u.e.signals
            && var signals := u.e.signals[|t.e.signals|..];
               && u.inpEof == (if signals == [] then t.inpEof else EndOf(signals))
               && forall s :: s in signals <==> Signalled(s, t.e.script, room, fuel)
    decreases fuel
  {
    hide ReadOne, Signalled, Stops, SignalsOf, Remaining, RoomLeft, Answer;
    var script, first := t.e.script, SignalsOf(Answer(t.e.script, 0), room);
    var u := DrainPlain(t, room, fuel).0;
    if fuel == 0 || Stops(Answer(script, 0)) {
      forall s ensures !Signalled(s, script, room, fuel) && (fuel > 0 ==> first == []) {
        StoppedIsSilent(s, script, room, fuel);
      }
      if fuel > 0 {
        ReadOneEffect(t, room);
        DrainStep(t, room, fuel);
      }
    } else {
      ReadOneEffect(t, room);
      DrainStep(t, room, fuel);
      var v := ReadOne(t, room).0;
      DrainSignals(v, RoomLeft(script, room), fuel - 1);
      assert u.e.signals[|t.e.signals|..] == first + u.e.signals[|v.e.signals|..];
      forall s ensures s in u.e.signals[|t.e.signals|..] <==> Signalled(s, script, room, fuel) {
        SignalledStep(s, script, room, fuel);
      }
    }
  }

  /** When the plaintext does not really end, a clean end is reported, falsely, if and only if the reader
      is asked without room: before it stops, its answers fill the room and it gives another one, or they
      hold more than there is room for. */
  lemma FalseCloseIff(t: Tls, room: nat, fuel: nat)
    requires !Signalled(CleanEnd, t.e.script, room, fuel) && !Signalled(UncleanEnd, t.e.script, room, fuel)
    ensures var u := DrainPlain(t, room, fuel).0;
            && t.e.signals <= u.e.signals
            && u.inpEof == (if Signalled(NoRoom, t.e.script, room, fuel) then Some(Close) else t.inpEof)
            && (NoRoom in u.e.signals[|t.e.signals|..] <==> Signalled(NoRoom, t.e.script, room, fuel))
  {
    hide Signalled, DrainPlain;
    DrainSignals(t, room, fuel);
    var signals := DrainPlain(t, room, fuel).0.e.signals[|t.e.signals|..];
    if signals != [] {
      assert signals[|signals| - 1] in signals;
    }
  }

  /** More room does no harm. */
  lemma MoreRoom(script: seq<Reply>, less: nat, more: nat, fuel: nat)
    requires less <= more && Signalled(NoRoom, script, more, fuel)
    ensures Signalled(NoRoom, script, less, fuel)
  {
    var i: nat :| GivenAt(NoRoom, script, more, fuel, i);
    assert GivenAt(NoRoom, script, less, fuel, i);
  }

  // ---------------------------------------------------------------- the end of the reading

  ghost predicate EndsAt(script: seq<Reply>, room: nat, fuel: nat, i: nat) {
    i < |script| && i < fuel && Stops(script[i]) && HandedOut(script, i) <= room
  }

  /** The reader has no more for now or fails, when it has handed out no more than there is room for. */
  ghost predicate Ends(script: seq<Reply>, room: nat, fuel: nat) {
    exists i: nat :: EndsAt(script, room, fuel, i)
  }

  lemma EndsStep(script: seq<Reply>, room: nat, fuel: nat)
    requires fuel > 0 && !Stops(Answer(script, 0))
    ensures Ends(script, room, fuel) <==> Ends(Remaining(script, room), RoomLeft(script, room), fuel - 1)
  {
    var rest, left := Remaining(script, room), RoomLeft(script, room);
    if Amount(Answer(script, 0)) <= room {
      if Ends(script, room, fuel) {
        var i: nat :| EndsAt(script, room, fuel, i);
        assert EndsAt(rest, left, fuel - 1, i - 1);
      }
      if Ends(rest, left, fuel - 1) {
        var i: nat :| EndsAt(rest, left, fuel - 1, i);
        assert EndsAt(script, room, fuel, i + 1);
      }
    } else {
      HeldNeverEnds(script, room, fuel);
      HeldNeverEnds(rest, 0, fuel - 1);
    }
  }

  lemma HeldNeverEnds(script: seq<Reply>, room: nat, fuel: nat)
    requires Amount(Answer(script, 0)) > room
    ensures !Ends(script, room, fuel)
  {
    if i: nat :| EndsAt(script, room, fuel, i) {
      HandedOutGrows(script, i);
    }
  }

  /** Reading plaintext comes to an end if and only if the reader at some point has no more for now or
      fails, and what it handed out before fitted into the room.  Reporting an end is not enough. */
  lemma {:induction false} DrainEndsIff(t: Tls, room: nat, fuel: nat)
    ensures DrainPlain(t, room, fuel).1 != Some(Cut) <==> Ends(t.e.script, room, fuel)
    decreases fuel
  {
    hide ReadOne, Remaining, RoomLeft;
    if fuel > 0 {
      DrainStep(t, room, fuel);
      ReadOneEffect(t, room);
      if Stops(Answer(t.e.script, 0)) {
        assert EndsAt(t.e.script, room, fuel, 0);
      } else {
        DrainEndsIff(ReadOne(t, room).0, RoomLeft(t.e.script, room), fuel - 1);
        EndsStep(t.e.script, room, fuel);
      }
    }
  }

  // ---------------------------------------------------------------- rounds and calls

  /** The state in which a round reads the plaintext that was announced. */
  function Reading(t: Tls): Tls {
    var u := TakeTls(AskRead(AskWrite(t))).0;
    u.(e := u.e.ProcessNewPackets().0)
  }

  predicate Allocatable(t: Tls, room: nat) {
    |t.inside.unread| + room <= ISIZE_MAX && 2 * room <= ISIZE_MAX
  }

  /** A round that asks for room has used four answers, and reads plaintext with the others. */
  lemma ReadingState(t: Tls)
    requires RoomAsked(t) > 0
    ensures var u := Reading(t);
            && u.e.script == Later(t.e.script, 4)
            && u.inside == t.inside && u.inpEof == t.inpEof && u.e.signals == t.e.signals
  {
    hide M.ReadBytes;
    var v := AskRead(AskWrite(t));
    assert v.e.script == Later(t.e.script, 2);
    var w := TakeTls(v).0;
    assert w.e.script == Later(t.e.script, 3);
  }

  lemma RoundReads(t: Tls, slack: nat, fuel: nat)
    requires RoomAsked(t) > 0
    ensures Round(t, slack, fuel)
            == if Allocatable(t, RoomAsked(t)) then DrainPlain(Reading(t), RoomAsked(t) + slack, fuel)
               else (Reading(t), Some(Panicked))
  {
    hide M.ReadBytes, DrainPlain, WriteBranch, PlainBranch, CloseBranch;
    ReadingState(t);
  }

  lemma OtherRounds(t: Tls, slack: nat, fuel: nat)
    requires RoomAsked(t) == 0
    ensures Round(t, slack, fuel).1 != Some(Cut)
  {
    hide M.ReadBytes, DrainPlain, WriteBranch, PlainBranch, CloseBranch;
    BranchesGoOn(AskWrite(t));
  }

  /** A round does not end if and only if it asks for room that can be had, and the reader then does not
      stop before it has handed out more than the buffer takes. */
  lemma RoundEndsIff(t: Tls, slack: nat, fuel: nat)
    ensures Round(t, slack, fuel).1 == Some(Cut) <==>
              && RoomAsked(t) > 0 && Allocatable(t, RoomAsked(t))
              && !Ends(Later(t.e.script, 4), RoomAsked(t) + slack, fuel)
  {
    hide Round, RoomAsked, Reading, Ends, DrainPlain;
    if RoomAsked(t) > 0 {
      ReadingState(t);
      RoundReads(t, slack, fuel);
      DrainEndsIff(Reading(t), RoomAsked(t) + slack, fuel);
    } else {
      OtherRounds(t, slack, fuel);
    }
  }

  /** Such a round keeps the call from returning, however long it is observed: a reader that keeps
      reporting the end does, and so does one that holds more than the buffer takes. */
  lemma EndKeepsReading(t: Tls, before: seq<nat>, u: Tls, slacks: seq<nat>, fuel: nat)
    requires LeadsTo(t, before, u, fuel) && slacks != []
    requires RoomAsked(u) > 0 && Allocatable(u, RoomAsked(u))
    requires !Ends(Later(u.e.script, 4), RoomAsked(u) + slacks[0], fuel)
    ensures Pump(t, before + slacks, fuel).1 == Cut
  {
    hide Round, RoomAsked, Ends;
    RoundEndsIff(u, slacks[0], fuel);
  }

  // ---------------------------------------------------------------- a run with a false end

  /** The answers of an engine that announces eight bytes of plaintext and hands them out.  Asked again
      without room it has nothing to give, and then says so. */
  function FullBufferScript(): seq<Reply> {
    [Reply(false, 0, [], NoFault),        // nothing to write
     Reply(true, 0, [], NoFault),         // wants to read
     Reply(false, 0, [], NoFault),        // has room for protocol data
     Reply(false, 8, [], NoFault),        // announces eight bytes
     Reply(false, 0, [1, 2, 3, 4, 5, 6, 7, 8], NoFault),
     Reply(false, 0, [], NoFault),        // no bytes for a read without room
     Reply(false, 0, [], WouldBlock)]     // no more for now
  }

  /** The state before such an engine is called. */
  ghost predicate Filling(t: Tls) {
    && t.e == New(FullBufferScript()) && t.ext.unread == [9] && t.inside == M.Empty
    && t.inpEof == None && !t.sentOutEof
  }

  lemma FalseCloseRoom(t: Tls)
    requires Filling(t)
    ensures RoomAsked(t) == 8
  {
    var v := AskRead(AskWrite(t));
    var (w, failed) := TakeTls(v);
    assert failed == None && w.e.script == FullBufferScript()[3..];
  }

  lemma FalseCloseObserved(t: Tls, slacks: seq<nat>, fuel: nat)
    requires Filling(t) && fuel >= 3 && slacks != [] && slacks[0] == 0
    requires |slacks| == fuel || Complete(t, slacks, fuel)
    ensures Pump(t, slacks, fuel).1 == Eof(Some(Close)) && Pump(t, slacks, fuel).0.e.signals == [NoRoom]
  {
    hide Pump, Filling;
    if |slacks| == fuel {
      FalseCloseCall(t, slacks, fuel);
    } else {
      FalseCloseCall(t, slacks + [0], fuel);
    }
  }

  lemma FalseCloseCall(t: Tls, slacks: seq<nat>, fuel: nat)
    requires Filling(t) && fuel >= 3 && |slacks| >= 2 && slacks[0] == 0
    ensures Pump(t, slacks, fuel).1 == Eof(Some(Close)) && Pump(t, slacks, fuel).0.e.signals == [NoRoom]
  {
    hide Round;
    FalseCloseRound(t, fuel);
    var y := Round(t, 0, fuel).0;
    assert slacks[1..] != [];
    assert Pump(t, slacks, fuel) == Pump(y, slacks[1..], fuel);
    RoundOver(y, slacks[1], fuel);
  }

  lemma RoundOver(y: Tls, slack: nat, fuel: nat)
    requires y.e.script == [] && y.inside.out == [] && !y.inside.outEof
    ensures var (z, stop) := Round(y, slack, fuel);
            stop == Some(Eof(y.inpEof)) && z.e.signals == y.e.signals
  {
  }

  lemma FalseCloseRound(t: Tls, fuel: nat)
    requires Filling(t) && fuel >= 3
    ensures var (y, stop) := Round(t, 0, fuel);
            && stop == None && y.inpEof == Some(Close) && y.e.signals == [NoRoom]
            && y.e.script == [] && y.inside.out == [] && !y.inside.outEof
  {
    hide Round, RoomAsked, Reading, DrainPlain;
    FalseCloseRoom(t);
    ReadingState(t);
    RoundReads(t, 0, fuel);
    FalseCloseDrain(Reading(t), fuel);
  }

  lemma FalseCloseDrain(x: Tls, fuel: nat)
    requires x.e.script == FullBufferScript()[4..] && x.inside == M.Empty && fuel >= 3
    ensures var (y, stop) := DrainPlain(x, 8, fuel);
            && stop == None && y.inpEof == Some(Close) && y.e.signals == x.e.signals + [NoRoom]
            && y.e.script == [] && y.inside.out == [] && !y.inside.outEof
  {
    var (t1, p1) := ReadOne(x, 8);
    var (t2, p2) := ReadOne(t1, 0);
    assert DrainPlain(x, 8, fuel) == DrainPlain(t1, 0, fuel - 1) == DrainPlain(t2, 0, fuel - 2);
  }
}
