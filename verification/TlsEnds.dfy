/**
 What becomes of the ends of the two directions: the end of the application's output on its way to the
 connection, and the end of the connection's input on its way to the application.
 */
module TlsEnds {

  import opened Common
  import opened Engine
  import opened TlsModel
  import opened TlsRuns
  import M = StreamModel
  import R = StreamRuns
  import P = PassThrough
  import S = Socket

  // ---------------------------------------------------------------- the end of the output

  /** After close_notify, the engine answers that it has data to write, writes it, and then has no more. */
  predicate WritesItsLast(t: Tls) {
    var s := t.e.script;
    t.sentOutEof && Answer(s, 0).yes && Answer(s, 1).fault.NoFault? && !Answer(s, 2).yes
  }

  /** The engine gives such answers in some round of the call. */
  ghost predicate PassesEndOn(t: Tls, slacks: seq<nat>, fuel: nat)
    decreases |slacks|
  {
    slacks != [] &&
    (WritesItsLast(t) ||
     (Round(t, slacks[0], fuel).1.None? && PassesEndOn(Round(t, slacks[0], fuel).0, slacks[1..], fuel)))
  }

  lemma NoteFinishPassesOn(t: Tls)
    ensures NoteFinish(t).ext.outEof <==> t.ext.outEof || (t.sentOutEof && !t.e.Next().yes)
  {
  }

  lemma WritePassesOn(t: Tls, owner: bool)
    requires Sound(t, owner)
    ensures WriteBranch(t).0.ext.outEof <==>
              t.ext.outEof || (t.sentOutEof && t.e.Next().fault.NoFault? && !t.e.Rest().Next().yes)
  {
    hide M.Flush, R.Inv, NoteFinish;
    var (e, data) := t.e.WriteTls();
    if data.Some? {
      AppendKeeps(t, owner);
      var v := t.(e := e, ext := M.Append(t.ext, data.value));
      NoteFinishKeeps(v, owner);
      NoteFinishPassesOn(v);
      P.FlushFrame(NoteFinish(v).ext);
    }
  }

  lemma ReadPassesOn(t: Tls, slack: nat, fuel: nat, owner: bool)
    requires Sound(t, owner) && t.ext.unread != []
    ensures ReadBranch(t, slack, fuel).0.ext.outEof == t.ext.outEof
  {
    hide Sound, Packets;
    TakeTlsKeeps(t, owner);
    PacketsKeeps(TakeTls(t).0, slack, fuel, owner);
  }

  lemma RoundPassesOn(t: Tls, slack: nat, fuel: nat, owner: bool)
    requires Sound(t, owner)
    ensures Round(t, slack, fuel).0.ext.outEof <==> t.ext.outEof || WritesItsLast(t)
  {
    hide Sound, WriteBranch, ReadBranch;
    AskWriteKeeps(t, owner);
    var u := AskWrite(t);
    WritePassesOn(u, owner);
    AskReadKeeps(u, owner);
    var v := AskRead(u);
    if v.ext.unread != [] {
      ReadPassesOn(v, slack, fuel, owner);
    }
  }

  /** That the application has ended its output is passed on to the connection in a call if and only if,
      in some round after close_notify, the engine has data to write and none left after writing. */
  lemma {:induction false} CallPassesEndOnIff(t: Tls, slacks: seq<nat>, fuel: nat, owner: bool)
    requires Sound(t, owner)
    ensures Pump(t, slacks, fuel).0.ext.outEof <==> t.ext.outEof || PassesEndOn(t, slacks, fuel)
    decreases |slacks|
  {
    hide Sound, Round, WritesItsLast;
    if slacks != [] {
      RoundKeeps(t, slacks[0], fuel, owner);
      RoundPassesOn(t, slacks[0], fuel, owner);
      if Round(t, slacks[0], fuel).1.None? {
        CallPassesEndOnIff(Round(t, slacks[0], fuel).0, slacks[1..], fuel, owner);
      }
    }
  }

  /** A call returns with close_notify sent and nothing left to do, and yet the connection is not told to
      close, because the engine had nothing to write after it. */
  lemma EndNotPassedOn()
    ensures var t := Open([]);
            var (u, r) := Pump(t.(inside := M.Step(t.inside, M.OpSetOutEof(true)).0), [0, 0], 1);
            r == Eof(None) && u.e.notifications == 1 && u.inside.outEof && !u.ext.outEof
  {
    var t := Open([]);
    var t0 := t.(inside := t.inside.(outEof := true));
    var t1 := CloseBranch(AskWrite(t0));
    assert Round(t0, 0, 1) == (t1, None);
    assert Pump(t0, [0, 0], 1) == Pump(t1, [0], 1);
  }

  // ---------------------------------------------------------------- the end of the input

  /** A call with nothing to take in leaves the state of the input as it is, whether or not the
      connection has ended: it reports an end if and only if one was reported before. */
  lemma ConnectionEndUnreported(t: Tls, slacks: seq<nat>, fuel: nat, owner: bool)
    requires Sound(t, owner) && t.ext.unread == []
    ensures var (u, r) := Pump(t, slacks, fuel);
            && u.inpEof == t.inpEof
            && (r.Eof? ==> (r.state.Some? <==> t.inpEof.Some?))
  {
    PumpKeeps(t, slacks, fuel, owner);
    hide Pump, R.Inv;
  }

  /** A call that does take data in makes of the input what the reader signals last, and the reader is
      asked only about announced plaintext: an end that comes without any leaves the state as it is. */
  lemma EndNeedsPlaintext(t: Tls, slacks: seq<nat>, fuel: nat, owner: bool)
    requires Sound(t, owner)
    ensures var (u, r) := Pump(t, slacks, fuel);
            && t.e.signals <= u.e.signals
            && u.inpEof == EndOf(u.e.signals)
            && (u.e.announcements == t.e.announcements ==> u.inpEof == t.inpEof)
            && (u.e.signals != t.e.signals ==> t.ext.unread != [] && |u.e.tlsIn| > |t.e.tlsIn|)
  {
    PumpKeeps(t, slacks, fuel, owner);
    hide Pump, R.Inv;
    var u := Pump(t, slacks, fuel).0;
    if u.e.signals != t.e.signals {
      assert u.e.tlsIn != t.e.tlsIn && t.e.tlsIn <= u.e.tlsIn;
    }
  }

  lemma ThreeSteps(t: Tls, ops: seq<P.Op>, slacks: seq<seq<nat>>, fuel: nat)
    requires |ops| == |slacks| == 3
    ensures var t1 := Step(t, ops[0], slacks[0], fuel).0;
            var t2 := Step(t1, ops[1], slacks[1], fuel).0;
            && Run(t, ops, slacks, fuel) == Step(t2, ops[2], slacks[2], fuel).0
            && Outcomes(t, ops, slacks, fuel)[2] == Step(t2, ops[2], slacks[2], fuel).1
  {
    hide Step;
    assert ops[..2][..1] == ops[..1] && ops[..1][..0] == [];
    assert slacks[..2][..1] == slacks[..1] && slacks[..1][..0] == [];
    assert Run(t, ops[..1], slacks[..1], fuel) == Step(t, ops[0], slacks[0], fuel).0;
    assert Run(t, ops[..2], slacks[..2], fuel)
        == Step(Run(t, ops[..1], slacks[..1], fuel), ops[1], slacks[1], fuel).0;
  }

  /** Attaching a stream that has one answer and reading from it. */
  lemma ReadFromNew(data: seq<byte>)
    requires |data| <= 1
    ensures var b := M.Step(M.Step(M.Empty, M.OpInit([S.Done(0, data)])).0, M.OpRead(1)).0;
            && b.unread == data && b.stream.Some? && b.stream.value.ended == (data == []) && b.inpEof == (data == [])
  {
  }

  /** The buffer with its end-of-input flag as given, and the same for the state. */
  function Flagged(b: M.Buf, flag: bool): M.Buf {
    b.(inpEof := flag)
  }

  function Marked(t: Tls, flag: bool): Tls {
    t.(ext := Flagged(t.ext, flag))
  }

  lemma NodelayIgnoresEnd(b: M.Buf, flag: bool)
    requires b.stream.Some?
    ensures M.NodelayStage(Flagged(b, flag)) == (Flagged(M.NodelayStage(b).0, flag), M.NodelayStage(b).1)
    ensures M.NodelayStage(b).0.stream.Some?
  {
    hide M.NodelayLoop;
  }

  lemma WriteStageIgnoresEnd(b: M.Buf, flag: bool)
    requires b.stream.Some?
    ensures M.WriteStage(Flagged(b, flag)) == (Flagged(M.WriteStage(b).0, flag), M.WriteStage(b).1)
    ensures M.WriteStage(b).0.stream.Some?
  {
    hide M.WriteLoop;
  }

  lemma FlushStageIgnoresEnd(b: M.Buf, flag: bool)
    requires b.stream.Some?
    ensures M.FlushStage(Flagged(b, flag)) == (Flagged(M.FlushStage(b).0, flag), M.FlushStage(b).1)
    ensures M.FlushStage(b).0.stream.Some?
  {
    hide M.FlushLoop;
  }

  lemma ShutdownIgnoresEnd(b: M.Buf, flag: bool)
    requires b.stream.Some?
    ensures M.ShutdownStage(Flagged(b, flag)) == (Flagged(M.ShutdownStage(b).0, flag), M.ShutdownStage(b).1)
  {
    hide M.ShutdownLoop;
  }

  lemma StagesIgnoreEnd(b: M.Buf, flag: bool)
    requires b.stream.Some?
    ensures M.Stages(Flagged(b, flag)) == (Flagged(M.Stages(b).0, flag), M.Stages(b).1)
  {
    hide M.NodelayStage, M.WriteStage, M.FlushStage, M.ShutdownStage;
    NodelayIgnoresEnd(b, flag);
    var b1 := M.NodelayStage(b).0;
    WriteStageIgnoresEnd(b1, flag);
    var b2 := M.WriteStage(b1).0;
    FlushStageIgnoresEnd(b2, flag);
    ShutdownIgnoresEnd(M.FlushStage(b2).0, flag);
  }

  lemma FlushIgnoresEnd(b: M.Buf, flag: bool)
    ensures M.Flush(Flagged(b, flag)) == (Flagged(M.Flush(b).0, flag), M.Flush(b).1)
  {
    hide M.Stages;
    if b.stream.Some? {
      StagesIgnoreEnd(b.(hist := b.hist.(offered := b.hist.appended)), flag);
    }
  }

  lemma NoteFinishIgnoresEnd(t: Tls, flag: bool)
    ensures NoteFinish(Marked(t, flag)) == Marked(NoteFinish(t), flag)
  {
  }

  lemma WriteIgnoresEnd(t: Tls, flag: bool)
    ensures WriteBranch(Marked(t, flag)) == (Marked(WriteBranch(t).0, flag), WriteBranch(t).1)
  {
    hide M.Flush, NoteFinish;
    var (e, data) := t.e.WriteTls();
    if data.Some? {
      var u := t.(e := e, ext := M.Append(t.ext, data.value));
      assert Marked(t, flag).(e := e, ext := M.Append(Marked(t, flag).ext, data.value)) == Marked(u, flag);
      NoteFinishIgnoresEnd(u, flag);
      FlushIgnoresEnd(NoteFinish(u).ext, flag);
    }
  }

  lemma ReadOneIgnoresEnd(t: Tls, flag: bool, room: nat)
    ensures ReadOne(Marked(t, flag), room) == (Marked(ReadOne(t, room).0, flag), ReadOne(t, room).1)
  {
    hide M.TakeIn;
  }

  lemma {:induction false} DrainIgnoresEnd(t: Tls, flag: bool, room: nat, fuel: nat)
    ensures DrainPlain(Marked(t, flag), room, fuel)
            == (Marked(DrainPlain(t, room, fuel).0, flag), DrainPlain(t, room, fuel).1)
    decreases fuel
  {
    hide ReadOne, Marked;
    if fuel > 0 {
      ReadOneIgnoresEnd(t, flag, room);
      var (u, plain) := ReadOne(t, room);
      if plain.CutShort? {
        DrainIgnoresEnd(u, flag, room, fuel - 1);
      } else if plain.Data? {
        ReadFits(t, room);
        DrainIgnoresEnd(u, flag, room - |plain.bytes|, fuel - 1);
      }
    }
  }

  lemma PacketsIgnoreEnd(t: Tls, flag: bool, slack: nat, fuel: nat)
    ensures Packets(Marked(t, flag), slack, fuel)
            == (Marked(Packets(t, slack, fuel).0, flag), Packets(t, slack, fuel).1)
  {
    hide DrainPlain;
    var (e, readLen) := t.e.ProcessNewPackets();
    assert Marked(t, flag).(e := e) == Marked(t.(e := e), flag);
    if readLen.Some? {
      DrainIgnoresEnd(t.(e := e), flag, readLen.value + slack, fuel);
    }
  }

  lemma TakeTlsIgnoresEnd(t: Tls, flag: bool)
    requires t.ext.unread != []
    ensures TakeTls(Marked(t, flag)) == (Marked(TakeTls(t).0, flag), TakeTls(t).1)
  {
  }

  lemma ReadIgnoresEnd(t: Tls, flag: bool, slack: nat, fuel: nat)
    requires t.ext.unread != []
    ensures ReadBranch(Marked(t, flag), slack, fuel)
            == (Marked(ReadBranch(t, slack, fuel).0, flag), ReadBranch(t, slack, fuel).1)
  {
    hide TakeTls, Packets, Marked;
    TakeTlsIgnoresEnd(t, flag);
    PacketsIgnoreEnd(TakeTls(t).0, flag, slack, fuel);
  }

  lemma OthersIgnoreEnd(t: Tls, flag: bool)
    ensures AskWrite(Marked(t, flag)) == Marked(AskWrite(t), flag)
    ensures AskRead(Marked(t, flag)) == Marked(AskRead(t), flag)
    ensures PlainBranch(Marked(t, flag)) == (Marked(PlainBranch(t).0, flag), PlainBranch(t).1)
    ensures CloseBranch(Marked(t, flag)) == Marked(CloseBranch(t), flag)
  {
  }

  lemma RoundIgnoresEnd(t: Tls, flag: bool, slack: nat, fuel: nat)
    ensures Round(Marked(t, flag), slack, fuel) == (Marked(Round(t, slack, fuel).0, flag), Round(t, slack, fuel).1)
  {
    hide AskWrite, AskRead, PlainBranch, CloseBranch, WriteBranch, ReadBranch;
    OthersIgnoreEnd(t, flag);
    var u := AskWrite(t);
    OthersIgnoreEnd(u, flag);
    WriteIgnoresEnd(u, flag);
    var v := AskRead(u);
    if v.ext.unread != [] {
      ReadIgnoresEnd(v, flag, slack, fuel);
    }
  }

  /** A call never looks at whether the connection has ended: with that flag set or not, it gives the same
      result and leaves the same state. */
  lemma {:induction false} CallIgnoresEnd(t: Tls, flag: bool, slacks: seq<nat>, fuel: nat)
    ensures Pump(Marked(t, flag), slacks, fuel) == (Marked(Pump(t, slacks, fuel).0, flag), Pump(t, slacks, fuel).1)
    decreases |slacks|
  {
    hide Round, Marked;
    if slacks != [] {
      RoundIgnoresEnd(t, flag, slacks[0], fuel);
      if Round(t, slacks[0], fuel).1.None? {
        CallIgnoresEnd(Round(t, slacks[0], fuel).0, flag, slacks[1..], fuel);
      }
    }
  }

  /** The connection has ended and all of it has been taken in, but no end is reported. */
  lemma SilentEnd()
    ensures var ops := [P.OnExt(M.OpInit([S.Done(0, [])])), P.OnExt(M.OpRead(1)), P.CallProcess];
            var z := Run(Open([]), ops, [[], [], [0]], 1);
            && P.AllProper(ops)
            && z.ext.stream.Some? && z.ext.stream.value.ended && z.ext.inpEof && z.ext.unread == []
            && Outcomes(Open([]), ops, [[], [], [0]], 1)[2] == P.Called(Eof(None))
  {
    var ops := [P.OnExt(M.OpInit([S.Done(0, [])])), P.OnExt(M.OpRead(1)), P.CallProcess];
    ThreeSteps(Open([]), ops, [[], [], [0]], 1);
    ReadFromNew([]);
    hide M.Step, Run, Outcomes;
    var t2 := Step(Step(Open([]), ops[0], [], 1).0, ops[1], [], 1).0;
    var (t3, r) := Pump(t2, [0], 1);
    assert r == Eof(None) && t3.ext == t2.ext;
  }

  /** On every run a clean end is reported exactly when the reader's last signal was a clean end or a
      read without room; an unclean one exactly when it was an unclean end. */
  lemma CloseMeans(config: seq<Reply>, ops: seq<P.Op>, slacks: seq<seq<nat>>, fuel: nat)
    requires |slacks| == |ops| && P.AllProper(ops)
    ensures var z := Run(Open(config), ops, slacks, fuel);
            var n := |z.e.signals|;
            && (z.inpEof == Some(Close) <==> n > 0 && (z.e.signals[n - 1].CleanEnd? || z.e.signals[n - 1].NoRoom?))
            && (z.inpEof == Some(Abort) <==> n > 0 && z.e.signals[n - 1].UncleanEnd?)
  {
    RunKeeps(config, ops, slacks, fuel);
    hide Run, Linked, Notified, Ordered;
  }
}
