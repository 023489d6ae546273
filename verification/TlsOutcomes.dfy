/**
 What a round of the loop and a call come to, in terms of the answers of the engine and of the stream.
 */
module TlsOutcomes {

  import opened Common
  import opened Engine
  import opened TlsModel
  import opened TlsRuns
  import opened TlsReading
  import M = StreamModel
  import O = StreamOutcomes
  import P = PassThrough

  // ---------------------------------------------------------------- how reading plaintext ends

  /** The answer number `i` is the one that ends the reading. */
  ghost predicate LastAt(script: seq<Reply>, room: nat, fuel: nat, i: nat) {
    EndsAt(script, room, fuel, i) && Unstopped(script, i)
  }

  /** Reading ends, and with an error of the reader. */
  ghost predicate ReaderFails(script: seq<Reply>, room: nat, fuel: nat) {
    exists i: nat :: LastAt(script, room, fuel, i) && script[i].fault.OtherFault?
  }

  lemma LastLater(script: seq<Reply>, room: nat, fuel: nat, i: nat)
    requires fuel > 0 && !Stops(Answer(script, 0)) && Amount(Answer(script, 0)) <= room
    ensures LastAt(script, room, fuel, i + 1)
            <==> LastAt(Later(script, 1), room - Amount(Answer(script, 0)), fuel - 1, i)
  {
    hide Unstopped;
    UnstoppedLater(script, i);
  }

  lemma ReaderFailsLater(script: seq<Reply>, room: nat, fuel: nat)
    requires fuel > 0 && !Stops(Answer(script, 0))
    ensures ReaderFails(script, room, fuel)
            <==> ReaderFails(Remaining(script, room), RoomLeft(script, room), fuel - 1)
  {
    var rest, left := Remaining(script, room), RoomLeft(script, room);
    if Amount(Answer(script, 0)) <= room {
      hide LastAt;
      if ReaderFails(script, room, fuel) {
        var i: nat :| LastAt(script, room, fuel, i) && script[i].fault.OtherFault?;
        assert i > 0 by {
          LastStops(script, room, fuel, i);
        }
        LastLater(script, room, fuel, i - 1);
        assert rest[i - 1] == script[i];
      }
      if ReaderFails(rest, left, fuel - 1) {
        var i: nat :| LastAt(rest, left, fuel - 1, i) && rest[i].fault.OtherFault?;
        LastLater(script, room, fuel, i);
        assert script[i + 1] == rest[i];
      }
    } else {
      HeldNeverEnds(script, room, fuel);
      HeldNeverEnds(rest, 0, fuel - 1);
    }
  }

  lemma LastStops(script: seq<Reply>, room: nat, fuel: nat, i: nat)
    requires LastAt(script, room, fuel, i)
    ensures i < |script| && Stops(script[i])
  {
  }

  lemma {:induction false} DrainFailsIff(t: Tls, room: nat, fuel: nat)
    ensures DrainPlain(t, room, fuel).1 == Some(TlsError) <==> ReaderFails(t.e.script, room, fuel)
    ensures DrainPlain(t, room, fuel).1 in {None, Some(TlsError), Some(Cut)}
    decreases fuel
  {
    hide ReadOne, Remaining, RoomLeft;
    if fuel > 0 {
      var script := t.e.script;
      DrainStep(t, room, fuel);
      ReadOneEffect(t, room);
      if Stops(Answer(script, 0)) {
        ReadOneFails(t, room);
        if script[0].fault.OtherFault? {
          assert LastAt(script, room, fuel, 0);
        }
      } else {
        DrainFailsIff(ReadOne(t, room).0, RoomLeft(script, room), fuel - 1);
        ReaderFailsLater(script, room, fuel);
      }
    }
  }

  lemma ReadOneFails(t: Tls, room: nat)
    ensures ReadOne(t, room).1.Broken? <==> Answer(t.e.script, 0).fault.OtherFault?
    ensures ReadOne(t, room).1.Empty? <==> Answer(t.e.script, 0).fault.WouldBlock?
  {
  }

  // ---------------------------------------------------------------- what a round comes to

  /** The engine has data to write: it fails to write it, or the flush of what it wrote fails. */
  predicate WriteFails(t: Tls) {
    var s := t.e.script;
    || !Answer(s, 1).fault.NoFault?
    || O.FlushFails(t.ext.(out := t.ext.out + Answer(s, 1).data,
                           outEof := t.ext.outEof || (t.sentOutEof && !Answer(s, 2).yes)))
  }

  /** The engine takes in protocol data, and announces this much plaintext. */
  predicate Announces(t: Tls) {
    var s := t.e.script;
    Answer(s, 2).fault.NoFault? && Answer(s, 3).fault.NoFault? && Answer(s, 3).count > 0
  }

  datatype Turn = GoesOn | Fails | Rests | Overflows | Hangs

  ghost function ReadTurn(t: Tls, slack: nat, fuel: nat): Turn {
    var s := t.e.script;
    var announced := Answer(s, 3).count;
    if !Answer(s, 2).fault.NoFault? || !Answer(s, 3).fault.NoFault? then Fails
    else if announced == 0 then GoesOn
    else if !Allocatable(t, announced) then Overflows
    else if ReaderFails(Later(s, 4), announced + slack, fuel) then Fails
    else if Ends(Later(s, 4), announced + slack, fuel) then GoesOn else Hangs
  }

  /** What a round comes to, going by the engine's and the stream's answers. */
  ghost function TurnOf(t: Tls, slack: nat, fuel: nat): Turn {
    var s := t.e.script;
    if Answer(s, 0).yes then if WriteFails(t) then Fails else GoesOn
    else if t.inside.out != [] then if Answer(s, 1).fault.NoFault? then GoesOn else Fails
    else if t.inside.outEof && !t.sentOutEof then GoesOn
    else if Answer(s, 1).yes && t.ext.unread != [] then ReadTurn(t, slack, fuel)
    else Rests
  }

  function ResultOf(turn: Turn, inpEof: Option<TlsEof>): Option<Result> {
    match turn
    case GoesOn => None
    case Fails => Some(TlsError)
    case Rests => Some(Eof(inpEof))
    case Overflows => Some(Panicked)
    case Hangs => Some(Cut)
  }

  lemma WriteTurn(t: Tls)
    ensures WriteBranch(AskWrite(t)).1 == if WriteFails(t) then Some(TlsError) else None
  {
    hide M.Flush, O.FlushFails;
    var u := AskWrite(t);
    var (e, data) := u.e.WriteTls();
    if data.Some? {
      var v := NoteFinish(u.(e := e, ext := M.Append(u.ext, data.value)));
      O.FlushFailsIff(v.ext);
      P.SameFlush(v.ext, t.ext.(out := t.ext.out + Answer(t.e.script, 1).data,
                                outEof := t.ext.outEof || (t.sentOutEof && !Answer(t.e.script, 2).yes)));
    }
  }

  lemma TakeTlsTurn(t: Tls)
    ensures var (w, failed) := TakeTls(t);
            && failed == (if Answer(t.e.script, 0).fault.NoFault? then None else Some(TlsError))
            && w.e.script == Later(t.e.script, 1) && w.inside == t.inside
  {
    hide M.ReadBytes;
  }

  lemma PacketsTurn(w: Tls, slack: nat, fuel: nat)
    ensures var s := w.e.script;
            var room := Answer(s, 0).count;
            Packets(w, slack, fuel).1
            == if !Answer(s, 0).fault.NoFault? then Some(TlsError)
               else if room == 0 then None
               else if !Allocatable(w, room) then Some(Panicked)
               else if ReaderFails(Later(s, 1), room + slack, fuel) then Some(TlsError)
               else if Ends(Later(s, 1), room + slack, fuel) then None else Some(Cut)
  {
    hide DrainPlain, Ends, ReaderFails;
    var (e, readLen) := w.e.ProcessNewPackets();
    if readLen.Some? {
      DrainFailsIff(w.(e := e), readLen.value + slack, fuel);
      DrainEndsIff(w.(e := e), readLen.value + slack, fuel);
    }
  }

  lemma ReadTurnIs(t: Tls, slack: nat, fuel: nat)
    ensures ReadBranch(AskRead(AskWrite(t)), slack, fuel).1 == ResultOf(ReadTurn(t, slack, fuel), t.inpEof)
  {
    hide TakeTls, Packets, Ends, ReaderFails;
    var v := AskRead(AskWrite(t));
    assert v.e.script == Later(t.e.script, 2) && v.inside == t.inside;
    TakeTlsTurn(v);
    var w := TakeTls(v).0;
    assert w.e.script == Later(t.e.script, 3) && w.inside == t.inside;
    PacketsTurn(w, slack, fuel);
    assert Later(w.e.script, 1) == Later(t.e.script, 4);
    assert Answer(v.e.script, 0) == Answer(t.e.script, 2) && Answer(w.e.script, 0) == Answer(t.e.script, 3);
  }

  /** For every state, every engine and every stream: a round fails, rests, goes on, panics or hangs exactly
      when the answers say so. */
  lemma RoundAnswers(t: Tls, slack: nat, fuel: nat)
    ensures Round(t, slack, fuel).1 == ResultOf(TurnOf(t, slack, fuel), t.inpEof)
  {
    hide WriteBranch, ReadBranch, WriteFails, ReadTurn;
    WriteTurn(t);
    ReadTurnIs(t, slack, fuel);
  }

  // ---------------------------------------------------------------- what a call comes to

  /** The first round of the call that does not go on comes to this, within the rounds observed. */
  ghost predicate ComesTo(t: Tls, slacks: seq<nat>, fuel: nat, turn: Turn)
    decreases |slacks|
  {
    slacks != [] &&
    if TurnOf(t, slacks[0], fuel).GoesOn? then ComesTo(Round(t, slacks[0], fuel).0, slacks[1..], fuel, turn)
    else TurnOf(t, slacks[0], fuel) == turn
  }

  /** What a call returns: an error if and only if some round fails, and the state of the input if and only if
      the call comes to rest. */
  lemma {:induction false} CallAnswers(t: Tls, slacks: seq<nat>, fuel: nat)
    ensures var (u, r) := Pump(t, slacks, fuel);
            && Step(t, P.CallProcess, slacks, fuel) == (u, P.Called(r))
            && (r == TlsError <==> ComesTo(t, slacks, fuel, Fails))
            && (r.Eof? <==> ComesTo(t, slacks, fuel, Rests))
            && (r.Eof? ==> r.state == u.inpEof)
            && (r == Panicked <==> ComesTo(t, slacks, fuel, Overflows))
    decreases |slacks|
  {
    hide Round, TurnOf;
    if slacks != [] {
      RoundAnswers(t, slacks[0], fuel);
      RestKeepsEnd(t, slacks[0], fuel);
      if TurnOf(t, slacks[0], fuel).GoesOn? {
        CallAnswers(Round(t, slacks[0], fuel).0, slacks[1..], fuel);
      }
    }
  }

  lemma RestKeepsEnd(t: Tls, slack: nat, fuel: nat)
    ensures TurnOf(t, slack, fuel).Rests? ==> Round(t, slack, fuel).0.inpEof == t.inpEof
  {
    hide WriteFails, ReadTurn;
    if TurnOf(t, slack, fuel).Rests? {
      RestsOnly(t, slack, fuel);
    }
  }

  lemma RestsOnly(t: Tls, slack: nat, fuel: nat)
    requires TurnOf(t, slack, fuel).Rests?
    ensures Round(t, slack, fuel).0 == AskRead(AskWrite(t))
  {
    hide WriteFails, WriteBranch, ReadBranch;
  }

  // ---------------------------------------------------------------- what a round moves

  function Least(a: nat, b: nat): nat {
    if a < b then a else b
  }

  lemma WriteMoves(t: Tls)
    requires Answer(t.e.script, 0).yes
    ensures var u := WriteBranch(AskWrite(t)).0;
            var written := if Answer(t.e.script, 1).fault.NoFault? then Answer(t.e.script, 1).data else [];
            && u.e.tlsOut == t.e.tlsOut + written
            && u.inside == t.inside
            && (u.e.plainIn, u.e.tlsIn, u.e.plainOut) == (t.e.plainIn, t.e.tlsIn, t.e.plainOut)
  {
    hide M.Flush, M.Append;
    assert t.e.tlsOut + [] == t.e.tlsOut;
  }

  lemma PlainMoves(t: Tls)
    ensures var u := PlainBranch(AskWrite(t)).0;
            var out := t.inside.out;
            var n := if Answer(t.e.script, 1).fault.NoFault? then Least(Answer(t.e.script, 1).count, |out|) else 0;
            && u.e.plainIn == t.e.plainIn + out[..n] && u.inside.out == out[n..]
            && u.ext == t.ext
            && (u.e.tlsOut, u.e.tlsIn, u.e.plainOut) == (t.e.tlsOut, t.e.tlsIn, t.e.plainOut)
  {
    assert t.e.plainIn + [] == t.e.plainIn;
  }

  lemma {:induction false} DrainMoves(t: Tls, room: nat, fuel: nat)
    ensures var u := DrainPlain(t, room, fuel).0;
            && u.ext == t.ext && u.inside.out == t.inside.out
            && (u.e.plainIn, u.e.tlsOut, u.e.tlsIn) == (t.e.plainIn, t.e.tlsOut, t.e.tlsIn)
    decreases fuel
  {
    hide ReadOne;
    if fuel > 0 {
      ReadOneMoves(t, room);
      var (u, plain) := ReadOne(t, room);
      if plain.CutShort? {
        DrainMoves(u, room, fuel - 1);
      } else if plain.Data? {
        ReadFits(t, room);
        DrainMoves(u, room - |plain.bytes|, fuel - 1);
      }
    }
  }

  lemma ReadOneMoves(t: Tls, room: nat)
    ensures var u := ReadOne(t, room).0;
            && u.ext == t.ext && u.inside.out == t.inside.out
            && (u.e.plainIn, u.e.tlsOut, u.e.tlsIn) == (t.e.plainIn, t.e.tlsOut, t.e.tlsIn)
  {
  }

  lemma PacketsMove(t: Tls, slack: nat, fuel: nat)
    ensures var u := Packets(t, slack, fuel).0;
            && u.ext == t.ext && u.inside.out == t.inside.out
            && (u.e.plainIn, u.e.tlsOut, u.e.tlsIn) == (t.e.plainIn, t.e.tlsOut, t.e.tlsIn)
  {
    hide DrainPlain;
    var (e, readLen) := t.e.ProcessNewPackets();
    if readLen.Some? {
      DrainMoves(t.(e := e), readLen.value + slack, fuel);
    }
  }

  lemma ReadMoves(t: Tls, slack: nat, fuel: nat)
    requires t.ext.unread != []
    ensures var u := ReadBranch(t, slack, fuel).0;
            var s, unread := t.e.script, t.ext.unread;
            var n := if Answer(s, 0).fault.NoFault? then Least(Answer(s, 0).count + 1, |unread|) else 0;
            && u.e.tlsIn == t.e.tlsIn + unread[..n] && u.ext.unread == unread[n..]
            && u.ext.out == t.ext.out && u.inside.out == t.inside.out
            && (u.e.plainIn, u.e.tlsOut) == (t.e.plainIn, t.e.tlsOut)
  {
    hide Packets;
    assert t.e.tlsIn + [] == t.e.tlsIn;
    PacketsMove(TakeTls(t).0, slack, fuel);
  }

  lemma CloseMoves(t: Tls)
    ensures var u := CloseBranch(AskWrite(t));
            && u.e.notifications == t.e.notifications + 1 && u.sentOutEof
            && (u.e.plainIn, u.e.tlsOut, u.e.tlsIn, u.e.plainOut)
               == (t.e.plainIn, t.e.tlsOut, t.e.tlsIn, t.e.plainOut)
            && u.inside == t.inside && u.ext == t.ext
  {
  }

  lemma AskMoves(t: Tls)
    ensures var u := AskRead(AskWrite(t));
            && u.e.script == Later(t.e.script, 2)
            && (u.e.plainIn, u.e.tlsOut, u.e.tlsIn, u.e.plainOut)
               == (t.e.plainIn, t.e.tlsOut, t.e.tlsIn, t.e.plainOut)
            && u.inside == t.inside && u.ext == t.ext
  {
  }

  /** Which of the branches a round takes. */
  lemma BranchTaken(t: Tls, slack: nat, fuel: nat)
    ensures var s := t.e.script;
            Round(t, slack, fuel).0
            == if Answer(s, 0).yes then WriteBranch(AskWrite(t)).0
               else if t.inside.out != [] then PlainBranch(AskWrite(t)).0
               else if t.inside.outEof && !t.sentOutEof then CloseBranch(AskWrite(t))
               else if Answer(s, 1).yes && t.ext.unread != [] then ReadBranch(AskRead(AskWrite(t)), slack, fuel).0
               else AskRead(AskWrite(t))
  {
    hide WriteBranch, PlainBranch, CloseBranch, ReadBranch;
  }

  /** What crosses the engine's interface in a round: the data it has to write, or else as much of the
      application's output as it accepts, or else close_notify, or else as much of what was received as it
      has room for. */
  lemma RoundMoves(t: Tls, slack: nat, fuel: nat)
    ensures var u := Round(t, slack, fuel).0;
            var s, out, unread := t.e.script, t.inside.out, t.ext.unread;
            if Answer(s, 0).yes then
              && u.e.tlsOut == t.e.tlsOut + (if Answer(s, 1).fault.NoFault? then Answer(s, 1).data else [])
              && (u.e.plainIn, u.e.tlsIn, u.e.plainOut) == (t.e.plainIn, t.e.tlsIn, t.e.plainOut)
              && u.inside == t.inside
            else if out != [] then
              var n := if Answer(s, 1).fault.NoFault? then Least(Answer(s, 1).count, |out|) else 0;
              && u.e.plainIn == t.e.plainIn + out[..n] && u.inside.out == out[n..]
              && (u.e.tlsOut, u.e.tlsIn, u.e.plainOut) == (t.e.tlsOut, t.e.tlsIn, t.e.plainOut)
              && u.ext == t.ext
            else if t.inside.outEof && !t.sentOutEof then
              && u.e.notifications == t.e.notifications + 1 && u.sentOutEof
              && (u.e.plainIn, u.e.tlsOut, u.e.tlsIn, u.e.plainOut)
                 == (t.e.plainIn, t.e.tlsOut, t.e.tlsIn, t.e.plainOut)
              && u.inside == t.inside && u.ext == t.ext
            else if Answer(s, 1).yes && unread != [] then
              var n := if Answer(s, 2).fault.NoFault? then Least(Answer(s, 2).count + 1, |unread|) else 0;
              && u.e.tlsIn == t.e.tlsIn + unread[..n] && u.ext.unread == unread[n..]
              && (u.e.plainIn, u.e.tlsOut) == (t.e.plainIn, t.e.tlsOut)
              && u.inside.out == out && u.ext.out == t.ext.out
            else
              && (u.e.plainIn, u.e.tlsOut, u.e.tlsIn, u.e.plainOut)
                 == (t.e.plainIn, t.e.tlsOut, t.e.tlsIn, t.e.plainOut)
              && u.inside == t.inside && u.ext == t.ext
  {
    hide Round, WriteBranch, PlainBranch, ReadBranch, CloseBranch, AskWrite, AskRead, Least;
    BranchTaken(t, slack, fuel);
    if Answer(t.e.script, 0).yes {
      WriteMoves(t);
    } else if t.inside.out != [] {
      PlainMoves(t);
    } else if t.inside.outEof && !t.sentOutEof {
      CloseMoves(t);
    } else {
      AskMoves(t);
      if t.ext.unread != [] {
        ReadMoves(AskRead(AskWrite(t)), slack, fuel);
      }
    }
  }
}
