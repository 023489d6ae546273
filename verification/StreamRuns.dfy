/**
 What holds of the stream buffer on every run, whatever the streams answer: both directions
 are lossless byte queues, the output side is closed at most once per stream and only when
 it is empty, and TCP_NODELAY is as requested.
 */
module StreamRuns {

  import opened Common
  import opened Socket
  import opened StreamModel

  /** Both directions are queues: nothing is lost, duplicated or reordered. */
  ghost predicate Lossless(b: Buf) {
    && b.hist.appended == Sent(b) + b.out
    && Received(b) == b.hist.consumed + b.unread
  }

  /** Each shutdown came when everything appended had been accepted, and in its own attachment. */
  ghost predicate ClosesInv(b: Buf) {
    && (forall i :: 0 <= i < |b.hist.closes| ==> b.hist.closes[i].sent == b.hist.closes[i].appended)
    && (forall i, j :: 0 <= i < j < |b.hist.closes| ==> b.hist.closes[i].init < b.hist.closes[j].init)
    && (forall i :: 0 <= i < |b.hist.closes| ==> b.hist.closes[i].init <= b.hist.inits)
    && (b.sentOutEof <==> b.hist.closes != [] && b.hist.closes[|b.hist.closes| - 1].init == b.hist.inits)
    && (b.stream.Some? ==> b.stream.value.shutdowns == if b.sentOutEof then 1 else 0)
  }

  /** A change of TCP_NODELAY is pending, or has failed, or is in force. */
  ghost predicate NodelayInv(b: Buf) {
    b.stream.Some? && !b.pendingNodelay && !b.hist.nodelayFailed ==> b.stream.value.nodelay == Some(b.nodelay)
  }

  ghost predicate EndInv(b: Buf) {
    b.inpEof <==> EndSeen(b) || b.hist.misread
  }

  ghost predicate Inv(b: Buf) {
    Lossless(b) && ClosesInv(b) && NodelayInv(b) && EndInv(b)
  }

  // ---------------------------------------------------------------- the loops of a flush

  lemma {:induction false} NodelayLoopApplies(s: Sock, flag: bool)
    ensures var (t, exit) := NodelayLoop(s, flag);
            && t == s.(script := t.script, nodelay := t.nodelay)
            && (exit.Proceed? ==> t.nodelay == Some(flag))
    decreases |s.script|
  {
    var (t, io) := s.SetNodelay(flag);
    if io.Again? {
      NodelayLoopApplies(t, flag);
    }
  }

  lemma Split(a: seq<byte>, b: seq<byte>, n: nat)
    requires n <= |b|
    ensures (a + b[..n]) + b[n..] == a + b
  {
  }

  /** Whatever the socket answers, the bytes it accepts and the bytes left make up the output. */
  lemma {:induction false} WriteLoopConserves(s: Sock, out: seq<byte>)
    ensures var (t, rest, exit) := WriteLoop(s, out);
            && t == s.(script := t.script, accepted := t.accepted)
            && t.accepted + rest == s.accepted + out
            && |rest| <= |out|
    decreases |out|, |s.script|
  {
    if out != [] {
      var (t, io) := s.Write(out);
      if io.Again? {
        WriteLoopConserves(t, out);
      } else if io.Ok? && io.value != 0 {
        WriteLoopConserves(t, out[io.value..]);
        Split(s.accepted, out, io.value);
      }
    }
  }

  lemma {:induction false} FlushLoopKeeps(s: Sock)
    ensures FlushLoop(s).0 == s.(script := FlushLoop(s).0.script)
    decreases |s.script|
  {
    var (t, io) := s.Flush();
    if io.Again? {
      FlushLoopKeeps(t);
    }
  }

  lemma {:induction false} ShutdownLoopOnce(s: Sock)
    ensures var (t, exit) := ShutdownLoop(s);
            && t == s.(script := t.script, shutdowns := t.shutdowns)
            && t.shutdowns == s.shutdowns + if exit.Proceed? then 1 else 0
    decreases |s.script|
  {
    var (t, io) := s.ShutdownWrite();
    if io.Again? {
      ShutdownLoopOnce(t);
    }
  }

  lemma {:induction false} ReadLoopDelivers(s: Sock, max: nat)
    ensures var (t, io) := ReadLoop(s, max);
            && t == s.(script := t.script, delivered := t.delivered, ended := t.ended)
            && t.delivered == s.delivered + (if io.Ok? then io.value else [])
            && (s.ended ==> t.ended)
            && (t.ended && !s.ended ==> io == Ok([]))
            && (io == Ok([]) && max > 0 ==> t.ended)
    decreases |s.script|
  {
    var (t, io) := s.Read(max);
    if io.Again? {
      ReadLoopDelivers(t, max);
    }
  }

  // ---------------------------------------------------------------- the stages of a flush

  /** A flush touches the output side and the stream only; the rest is as before. */
  ghost predicate OnlyOutput(b: Buf, c: Buf) {
    && c == b.(out := c.out, pendingNodelay := c.pendingNodelay, sentOutEof := c.sentOutEof,
               stream := c.stream,
               hist := b.hist.(nodelayFailed := c.hist.nodelayFailed, closes := c.hist.closes))
    && b.stream.Some? && c.stream.Some?
    && c.stream.value.delivered == b.stream.value.delivered
    && c.stream.value.ended == b.stream.value.ended
  }

  lemma NodelayStageKeeps(b: Buf)
    requires b.stream.Some? && Inv(b)
    ensures Inv(NodelayStage(b).0) && OnlyOutput(b, NodelayStage(b).0)
  {
    hide NodelayLoop, ClosesInv;
    NodelayLoopApplies(b.stream.value, b.nodelay);
    SameCloses(b, NodelayStage(b).0);
  }

  lemma WriteStageKeeps(b: Buf)
    requires b.stream.Some? && Inv(b)
    ensures Inv(WriteStage(b).0) && OnlyOutput(b, WriteStage(b).0)
  {
    WriteLoopConserves(b.stream.value, b.out);
    var (t, rest, exit) := WriteLoop(b.stream.value, b.out);
    assert b.hist.passedOn + t.accepted + rest == b.hist.passedOn + (t.accepted + rest);
    assert b.hist.passedOn + b.stream.value.accepted + b.out == b.hist.passedOn + (b.stream.value.accepted + b.out);
  }

  lemma FlushStageKeeps(b: Buf)
    requires b.stream.Some? && Inv(b)
    ensures Inv(FlushStage(b).0) && OnlyOutput(b, FlushStage(b).0)
  {
    FlushLoopKeeps(b.stream.value);
  }

  /** Recording a shutdown of an empty output side. */
  lemma CloseRecorded(b: Buf, c: Buf)
    requires ClosesInv(b) && !b.sentOutEof && b.stream.Some? && c.stream.Some?
    requires c.hist.inits == b.hist.inits && c.sentOutEof && c.stream.value.shutdowns == b.stream.value.shutdowns + 1
    requires c.hist.closes == b.hist.closes + [Close(b.hist.inits, Sent(b), b.hist.appended)]
    requires Sent(b) == b.hist.appended
    ensures ClosesInv(c)
  {
    forall i, j | 0 <= i < j < |c.hist.closes|
      ensures c.hist.closes[i].init < c.hist.closes[j].init
    {
      if j == |b.hist.closes| {
        assert b.hist.closes[i].init <= b.hist.closes[|b.hist.closes| - 1].init;
      }
    }
  }

  lemma ShutdownStageKeeps(b: Buf)
    requires b.stream.Some? && Inv(b)
    ensures Inv(ShutdownStage(b).0) && OnlyOutput(b, ShutdownStage(b).0)
  {
    hide ShutdownLoop, ClosesInv;
    ShutdownLoopOnce(b.stream.value);
    if b.outEof && !b.sentOutEof && b.out == [] {
      var c := ShutdownStage(b).0;
      assert Sent(c) == Sent(b) && Sent(b) + [] == Sent(b);
      if c.sentOutEof {
        CloseRecorded(b, c);
      } else {
        SameCloses(b, c);
      }
    }
  }

  lemma SameCloses(b: Buf, c: Buf)
    requires ClosesInv(b)
    requires c.hist.closes == b.hist.closes && c.hist.inits == b.hist.inits && c.sentOutEof == b.sentOutEof
    requires c.stream.Some? ==> b.stream.Some? && c.stream.value.shutdowns == b.stream.value.shutdowns
    ensures ClosesInv(c)
  {
  }

  lemma OnlyOutputTransitive(a: Buf, b: Buf, c: Buf)
    requires OnlyOutput(a, b) && OnlyOutput(b, c)
    ensures OnlyOutput(a, c)
  {
  }

  lemma StagesKeep(b: Buf)
    requires b.stream.Some? && Inv(b)
    ensures Inv(Stages(b).0) && OnlyOutput(b, Stages(b).0)
  {
    hide Inv, NodelayStage, WriteStage, FlushStage, ShutdownStage;
    NodelayStageKeeps(b);
    var (b1, e1) := NodelayStage(b);
    if e1.Proceed? {
      WriteStageKeeps(b1);
      var (b2, e2) := WriteStage(b1);
      OnlyOutputTransitive(b, b1, b2);
      if e2.Proceed? {
        FlushStageKeeps(b2);
        var (b3, e3) := FlushStage(b2);
        OnlyOutputTransitive(b, b2, b3);
        if e3.Proceed? {
          ShutdownStageKeeps(b3);
          OnlyOutputTransitive(b, b3, ShutdownStage(b3).0);
        }
      }
    }
  }

  /** A flush keeps the invariant and the input side, and takes note of what it was offered. */
  lemma FlushKeeps(b: Buf)
    requires Inv(b)
    ensures var c := Flush(b).0;
            && Inv(c)
            && c.hist.offered == c.hist.appended == b.hist.appended
            && (c == b.(hist := b.hist.(offered := b.hist.appended))
                || OnlyOutput(b.(hist := b.hist.(offered := b.hist.appended)), c))
  {
    var a := b.(hist := b.hist.(offered := b.hist.appended));
    assert Inv(a) by { NothingSent(b, a); }
    hide Inv, Stages;
    if !a.pause && a.stream.Some? {
      StagesKeep(a);
    }
  }

  lemma NothingSent(b: Buf, a: Buf)
    requires Inv(b) && a == b.(hist := b.hist.(offered := b.hist.appended))
    ensures Inv(a)
  {
    hide ClosesInv;
    SameCloses(b, a);
  }

  // ---------------------------------------------------------------- the other operations

  lemma ReadLossless(b: Buf, c: Buf, got: seq<byte>)
    requires Lossless(b) && b.stream.Some? && c.stream.Some?
    requires c.hist.takenIn == b.hist.takenIn && c.hist.consumed == b.hist.consumed
    requires c.hist.appended == b.hist.appended && c.out == b.out
    requires Sent(c) == Sent(b)
    requires c.stream.value.delivered == b.stream.value.delivered + got && c.unread == b.unread + got
    ensures Lossless(c)
  {
    assert b.hist.takenIn + (b.stream.value.delivered + got) == Received(b) + got;
    assert b.hist.consumed + b.unread + got == b.hist.consumed + (b.unread + got);
  }

  lemma ReadKeeps(b: Buf, max: nat)
    requires Inv(b)
    ensures Inv(Read(b, max).0)
    ensures Read(b, max).0.hist.misread ==> b.hist.misread || max == 0
  {
    hide ReadLoop, ClosesInv, Lossless;
    if b.stream.Some? {
      ReadLoopDelivers(b.stream.value, max);
      var (s, io) := ReadLoop(b.stream.value, max);
      var c := Read(b, max).0;
      ReadLossless(b, c, if io.Ok? then io.value else []);
      SameCloses(b, c);
    }
  }

  lemma ReadBytesKeeps(b: Buf, room: nat)
    requires Inv(b)
    ensures Inv(ReadBytes(b, room).0)
  {
    hide ClosesInv;
    if b.unread != [] {
      var n := if room < |b.unread| then room else |b.unread|;
      assert b.unread == b.unread[..n] + b.unread[n..];
      assert b.hist.consumed + b.unread == b.hist.consumed + b.unread[..n] + b.unread[n..];
      SameCloses(b, ReadBytes(b, room).0);
    }
  }

  lemma InitKeeps(b: Buf, script: seq<Reply>)
    requires Inv(b)
    ensures Inv(Init(b, script)) && Inv(Retire(b))
  {
    assert Sent(Init(b, script)) == Sent(b) && Received(Init(b, script)) == Received(b);
    assert Sent(Retire(b)) == Sent(b) && Received(Retire(b)) == Received(b);
  }

  lemma AppendKeeps(b: Buf, data: seq<byte>)
    requires Inv(b)
    ensures Inv(Append(b, data))
  {
    hide ClosesInv;
    SameCloses(b, Append(b, data));
    assert b.hist.appended + data == Sent(b) + (b.out + data);
  }

  /** Setting flags changes neither the data nor what has been closed. */
  lemma SettingKeeps(b: Buf, c: Buf)
    requires Inv(b)
    requires c == b.(outEof := c.outEof, pause := c.pause, nodelay := c.nodelay, pendingNodelay := c.pendingNodelay)
    requires c.pendingNodelay || (c.nodelay == b.nodelay && c.pendingNodelay == b.pendingNodelay)
    ensures Inv(c)
  {
    hide ClosesInv;
    SameCloses(b, c);
  }

  lemma StepKeeps(b: Buf, op: Op)
    requires Inv(b)
    ensures Inv(Step(b, op).0)
  {
    hide Flush, Read, ReadBytes, Init, Retire, Append, Inv;
    match op
    case OpInit(script) => InitKeeps(b, script);
    case OpDeinit => InitKeeps(b, []);
    case OpFlush => FlushKeeps(b);
    case OpRead(max) => ReadKeeps(b, max);
    case OpReadBytes(room) => ReadBytesKeeps(b, room);
    case OpAppend(data) => AppendKeeps(b, data);
    case _ => SettingKeeps(b, Step(b, op).0);
  }

  /** On every run, over any number of streams and whatever they answer. */
  lemma {:induction false} RunKeeps(b: Buf, ops: seq<Op>)
    requires Inv(b)
    ensures Inv(Run(b, ops))
    decreases ops
  {
    if ops != [] {
      StepKeeps(b, ops[0]);
      RunKeeps(Step(b, ops[0]).0, ops[1..]);
    }
  }

  lemma EmptyInv()
    ensures Inv(Empty)
  {
  }

  // ---------------------------------------------------------------- when a flush sends all

  /** The socket may interrupt, but otherwise takes at least one byte at a time. */
  ghost predicate Willing(script: seq<Reply>) {
    forall i :: 0 <= i < |script| ==> script[i].Interrupted? || (script[i].Done? && script[i].count > 0)
  }

  function Grants(script: seq<Reply>): nat {
    if script == [] then 0 else (if script[0].Done? then 1 else 0) + Grants(script[1..])
  }

  lemma WillingRest(s: Sock)
    requires Willing(s.script) && Grants(s.script) > 0
    ensures Willing(s.Rest().script)
    ensures s.Next().Interrupted? || (s.Next().Done? && s.Next().count > 0)
    ensures Grants(s.Rest().script) == Grants(s.script) - if s.Next().Done? then 1 else 0
  {
  }

  lemma {:induction false} WillingWrite(s: Sock, out: seq<byte>, spare: nat)
    requires Willing(s.script) && Grants(s.script) >= |out| + spare
    ensures var (t, rest, exit) := WriteLoop(s, out);
            Willing(t.script) && Grants(t.script) >= spare && rest == [] && exit == Proceed
    decreases |out|, |s.script|
  {
    if out != [] {
      WillingRest(s);
      var (t, io) := s.Write(out);
      if io.Again? {
        WillingWrite(t, out, spare);
      } else {
        WillingWrite(t, out[io.value..], spare);
      }
    }
  }

  lemma {:induction false} WillingNodelay(s: Sock, flag: bool)
    requires Willing(s.script) && Grants(s.script) > 0
    ensures var (t, exit) := NodelayLoop(s, flag);
            Willing(t.script) && Grants(t.script) >= Grants(s.script) - 1 && exit == Proceed
    decreases |s.script|
  {
    WillingRest(s);
    var (t, io) := s.SetNodelay(flag);
    if io.Again? {
      WillingNodelay(t, flag);
    }
  }

  lemma {:induction false} WillingFlush(s: Sock)
    requires Willing(s.script) && Grants(s.script) > 0
    ensures var (t, exit) := FlushLoop(s);
            Willing(t.script) && Grants(t.script) >= Grants(s.script) - 1 && exit == Proceed
    decreases |s.script|
  {
    WillingRest(s);
    var (t, io) := s.Flush();
    if io.Again? {
      WillingFlush(t);
    }
  }

  lemma {:induction false} WillingShutdown(s: Sock)
    requires Willing(s.script) && Grants(s.script) > 0
    ensures ShutdownLoop(s).1 == Proceed
    decreases |s.script|
  {
    WillingRest(s);
    var (t, io) := s.ShutdownWrite();
    if io.Again? {
      WillingShutdown(t);
    }
  }

  /** The socket's refusals are the only reason for output to stay behind: if it keeps taking at
      least a byte, one flush sends everything and, when asked to, closes the output side. */
  lemma FlushSendsAll(b: Buf)
    requires !b.pause && b.stream.Some?
    requires Willing(b.stream.value.script) && Grants(b.stream.value.script) >= |b.out| + 3
    ensures var (c, error) := Flush(b);
            && error == None && c.out == [] && !c.pendingNodelay
            && (b.outEof ==> c.sentOutEof)
  {
    hide NodelayLoop, WriteLoop, FlushLoop, ShutdownLoop, Willing;
    var (b1, e1) := NodelayStage(b);
    if b.pendingNodelay {
      WillingNodelay(b.stream.value, b.nodelay);
    }
    WillingWrite(b1.stream.value, b1.out, 2);
    var (b2, e2) := WriteStage(b1);
    WillingFlush(b2.stream.value);
    var (b3, e3) := FlushStage(b2);
    WillingShutdown(b3.stream.value);
  }

  // ---------------------------------------------------------------- the status of a read

  /** New data is reported exactly when there is some, and no more than was asked for.  The flag for
      the end is raised exactly by the reads that report the end, which means, if there was room,
      that the stream has ended. */
  lemma ReadStatusExact(b: Buf, max: nat)
    ensures var (c, status) := Read(b, max);
            && b.unread <= c.unread && |c.unread| <= |b.unread| + max
            && (status.NewData? <==> |c.unread| > |b.unread|)
            && (status.EndOfStream? ==> c.inpEof && c.unread == b.unread)
            && (c.inpEof <==> b.inpEof || status.EndOfStream?)
            && (status.EndOfStream? && max > 0 ==> c.stream.Some? && c.stream.value.ended)
  {
    if b.stream.Some? {
      ReadLoopDelivers(b.stream.value, max);
      hide ReadLoop;
      assert b.unread + [] == b.unread;
    }
  }

  // ---------------------------------------------------------------- the end of the input

  /** The application is told that the input has ended exactly when all received bytes have been
      consumed and a stream has reported its end, or a read without room was taken for it. */
  lemma ZeroReadMeansEnd(b: Buf, room: nat)
    requires Inv(b) && room > 0
    ensures ReadBytes(b, room).1 == Some([]) <==> Received(b) == b.hist.consumed && (EndSeen(b) || b.hist.misread)
  {
    assert Received(b) == b.hist.consumed <==> b.unread == [];
  }

  ghost predicate NeverReadsZero(ops: seq<Op>) {
    forall i :: 0 <= i < |ops| && ops[i].OpRead? ==> ops[i].max > 0
  }

  lemma StepMisread(b: Buf, op: Op)
    requires Inv(b)
    ensures Step(b, op).0.hist.misread ==> b.hist.misread || op == OpRead(0)
  {
    hide Inv, Flush, Read, OnlyOutput;
    if op.OpRead? {
      ReadKeeps(b, op.max);
    } else if op.OpFlush? {
      FlushInput(b);
    }
  }

  lemma FlushInput(b: Buf)
    requires Inv(b)
    ensures var c := Flush(b).0;
            && c.hist.misread == b.hist.misread && c.hist.inits == b.hist.inits && c.hist.takenIn == b.hist.takenIn
            && c.hist.endedBefore == b.hist.endedBefore && (c.stream.Some? <==> b.stream.Some?)
  {
    hide Inv, Flush;
    FlushKeeps(b);
  }

  lemma {:induction false} MisreadNeedsZero(b: Buf, ops: seq<Op>)
    requires Inv(b) && !b.hist.misread && NeverReadsZero(ops)
    ensures !Run(b, ops).hist.misread
    decreases ops
  {
    hide Step, Inv;
    if ops != [] {
      StepKeeps(b, ops[0]);
      StepMisread(b, ops[0]);
      assert forall i :: 0 <= i < |ops[1..]| ==> ops[1..][i] == ops[i + 1];
      MisreadNeedsZero(Step(b, ops[0]).0, ops[1..]);
    }
  }

  /** With one stream and no read without room, the application is told of the end exactly when
      the stream has ended and everything it delivered has been consumed.  With a later stream it
      is also told, wrongly, when an earlier one had ended: attaching does not clear the flag. */
  lemma EndOnOneStream(ops: seq<Op>, room: nat)
    requires NeverReadsZero(ops) && room > 0
    ensures var b := Run(Empty, ops);
            b.stream.Some? && b.hist.inits == 1 ==>
              (ReadBytes(b, room).1 == Some([]) <==>
                 b.stream.value.ended && b.stream.value.delivered == b.hist.consumed)
    ensures var b := Run(Empty, ops);
            b.stream.Some? && !b.stream.value.ended && b.unread == [] ==>
              (ReadBytes(b, room).1 == Some([]) <==> b.hist.endedBefore)
  {
    var b := Run(Empty, ops);
    EmptyInv();
    RunKeeps(Empty, ops);
    MisreadNeedsZero(Empty, ops);
    ZeroReadMeansEnd(b, room);
    FirstAttachment(Empty, ops);
  }

  /** Nothing can have come from an earlier stream while there has been none. */
  ghost predicate FirstStream(b: Buf) {
    && (b.hist.inits == 0 ==> b.stream.None?)
    && ((b.hist.inits == 0 || (b.hist.inits == 1 && b.stream.Some?)) ==> b.hist.takenIn == [] && !b.hist.endedBefore)
  }

  lemma InitFirstStream(b: Buf, script: seq<Reply>)
    requires FirstStream(b)
    ensures FirstStream(Init(b, script)) && FirstStream(Retire(b))
  {
    assert b.stream.None? ==> b.hist.takenIn + [] == b.hist.takenIn;
  }

  lemma ReadInput(b: Buf, max: nat)
    ensures var c := Read(b, max).0;
            && c.hist.inits == b.hist.inits && c.hist.takenIn == b.hist.takenIn
            && c.hist.endedBefore == b.hist.endedBefore && (c.stream.Some? <==> b.stream.Some?)
  {
    hide ReadLoop;
  }

  lemma StepFirstStream(b: Buf, op: Op)
    requires Inv(b) && FirstStream(b)
    ensures FirstStream(Step(b, op).0)
  {
    hide Inv, Flush, Read, Init, Retire;
    match op
    case OpFlush => FlushInput(b);
    case OpRead(max) => ReadInput(b, max);
    case OpInit(script) => InitFirstStream(b, script);
    case OpDeinit => InitFirstStream(b, []);
    case _ =>
  }

  lemma {:induction false} FirstAttachment(b: Buf, ops: seq<Op>)
    requires Inv(b) && FirstStream(b)
    ensures FirstStream(Run(b, ops))
    decreases ops
  {
    hide Step, Inv, FirstStream;
    if ops != [] {
      StepKeeps(b, ops[0]);
      StepFirstStream(b, ops[0]);
      FirstAttachment(Step(b, ops[0]).0, ops[1..]);
    }
  }

  /** A second stream that has not ended is reported as ended. */
  lemma StaleEndOfStream()
    ensures var ops := [OpInit([Done(0, [])]), OpRead(1), OpInit([Done(1, [7])])];
            var b := Run(Empty, ops);
            && b.stream.Some? && !b.stream.value.ended
            && ReadBytes(b, 1).1 == Some([])
  {
    var b1 := Step(Empty, OpInit([Done(0, [])])).0;
    var b2 := Step(b1, OpRead(1)).0;
    var b3 := Step(b2, OpInit([Done(1, [7])])).0;
    assert Run(Empty, [OpInit([Done(0, [])]), OpRead(1), OpInit([Done(1, [7])])])
        == Run(b1, [OpRead(1), OpInit([Done(1, [7])])])
        == Run(b2, [OpInit([Done(1, [7])])])
        == Run(b3, []);
  }

  // ---------------------------------------------------------------- TCP_NODELAY

  /** The first answer that is not an interruption. */
  function Answer(script: seq<Reply>): Reply {
    if script == [] then WouldBlock else if script[0].Interrupted? then Answer(script[1..]) else script[0]
  }

  ghost predicate InForce(b: Buf) {
    b.stream.Some? && b.stream.value.nodelay == Some(b.nodelay)
  }

  lemma {:induction false} NodelayLoopAnswer(s: Sock, flag: bool)
    ensures NodelayLoop(s, flag).0.nodelay == if Answer(s.script).Done? then Some(flag) else s.nodelay
    decreases |s.script|
  {
    var (t, io) := s.SetNodelay(flag);
    if io.Again? {
      NodelayLoopAnswer(t, flag);
    }
  }

  /** Past the first stage a flush leaves the setting alone. */
  lemma LaterStagesKeepNodelay(b: Buf)
    requires b.stream.Some?
    ensures var (b1, e1) := NodelayStage(b);
            var c := Stages(b).0;
            && c.stream.Some? && c.stream.value.nodelay == b1.stream.value.nodelay
            && c.nodelay == b1.nodelay && c.pendingNodelay == b1.pendingNodelay
  {
    hide NodelayLoop, WriteLoop, FlushLoop, ShutdownLoop;
    var b1 := NodelayStage(b).0;
    WriteLoopConserves(b1.stream.value, b1.out);
    var b2 := WriteStage(b1).0;
    FlushLoopKeeps(b2.stream.value);
    ShutdownLoopOnce(FlushStage(b2).0.stream.value);
  }

  lemma StagesNodelay(b: Buf)
    requires b.stream.Some?
    ensures var c := Stages(b).0;
            && c.nodelay == b.nodelay && !c.pendingNodelay && c.stream.Some?
            && c.stream.value.nodelay
               == if b.pendingNodelay && Answer(b.stream.value.script).Done? then Some(b.nodelay)
                  else b.stream.value.nodelay
  {
    LaterStagesKeepNodelay(b);
    NodelayLoopAnswer(b.stream.value, b.nodelay);
    hide NodelayLoop, Stages, Answer;
  }

  /** What a flush does about the setting.  Paused or without a stream, nothing; otherwise nothing is
      pending afterwards, and a pending change has been applied if and only if the first answer that
      is not an interruption accepts it. */
  lemma FlushNodelay(b: Buf)
    ensures var c := Flush(b).0;
            && c.nodelay == b.nodelay && (c.stream.Some? <==> b.stream.Some?)
            && c.pendingNodelay == (b.pendingNodelay && (b.pause || b.stream.None?))
            && (b.stream.Some? ==>
                  c.stream.value.nodelay
                  == if !b.pause && b.pendingNodelay && Answer(b.stream.value.script).Done? then Some(b.nodelay)
                     else b.stream.value.nodelay)
  {
    hide Stages, Answer;
    if !b.pause && b.stream.Some? {
      StagesNodelay(b.(hist := b.hist.(offered := b.hist.appended)));
    }
  }

  /** After a flush that had a change to apply, the setting is in force if and only if the stream
      accepted it, or it was in force before. */
  lemma NodelayAppliedIff(b: Buf)
    requires b.stream.Some? && !b.pause && b.pendingNodelay
    ensures InForce(Flush(b).0) <==> Answer(b.stream.value.script).Done? || InForce(b)
  {
    FlushNodelay(b);
  }

  /** No stream is attached and the setting is only ever set to what it is. */
  ghost predicate SettingUntouched(ops: seq<Op>, flag: bool) {
    forall i :: 0 <= i < |ops| ==> !ops[i].OpInit? && (ops[i].OpSetNodelay? ==> ops[i].flag == flag)
  }

  lemma NodelayStep(b: Buf, op: Op)
    requires !b.pendingNodelay && !op.OpInit? && (op.OpSetNodelay? ==> op.flag == b.nodelay)
    ensures var c := Step(b, op).0;
            && !c.pendingNodelay && c.nodelay == b.nodelay
            && (c.stream.Some? ==> b.stream.Some? && c.stream.value.nodelay == b.stream.value.nodelay)
  {
    hide Flush, ReadLoop;
    FlushNodelay(b);
    if b.stream.Some? && op.OpRead? {
      ReadLoopDelivers(b.stream.value, op.max);
    }
  }

  /** With nothing pending, the stream's setting stays as it is, in force or not, over any run that
      neither attaches a stream nor changes the setting. */
  lemma {:induction false} NodelayIsNotRetried(b: Buf, ops: seq<Op>)
    requires !b.pendingNodelay && SettingUntouched(ops, b.nodelay)
    ensures var c := Run(b, ops);
            && !c.pendingNodelay && c.nodelay == b.nodelay
            && (c.stream.Some? ==> b.stream.Some? && c.stream.value.nodelay == b.stream.value.nodelay)
    decreases ops
  {
    hide Step;
    if ops != [] {
      NodelayStep(b, ops[0]);
      assert forall i :: 0 <= i < |ops[1..]| ==> ops[1..][i] == ops[i + 1];
      NodelayIsNotRetried(Step(b, ops[0]).0, ops[1..]);
    }
  }

  /** So, from the flush that tries to apply a change until the next attachment or change, the setting
      is in force if and only if that attempt was accepted or it was in force before. */
  lemma NodelayInForceIff(b: Buf, ops: seq<Op>)
    requires b.stream.Some? && !b.pause && b.pendingNodelay && SettingUntouched(ops, b.nodelay)
    ensures var c := Run(Flush(b).0, ops);
            c.stream.Some? ==> (InForce(c) <==> Answer(b.stream.value.script).Done? || InForce(b))
  {
    FlushNodelay(b);
    NodelayIsNotRetried(Flush(b).0, ops);
  }

  /** So the setting can stay unapplied with nothing pending: one failure is enough. */
  lemma NodelayCanBeMissed()
    ensures var ops := [OpSetNodelay(true), OpInit([Fault(1), Done(0, [])]), OpFlush, OpFlush];
            var b := Run(Empty, ops);
            && b.stream.Some? && b.nodelay && !b.pendingNodelay
            && b.stream.value.nodelay == None
  {
    var b1 := Step(Empty, OpSetNodelay(true)).0;
    var b2 := Step(b1, OpInit([Fault(1), Done(0, [])])).0;
    var b3 := Step(b2, OpFlush).0;
    var b4 := Step(b3, OpFlush).0;
    assert Run(Empty, [OpSetNodelay(true), OpInit([Fault(1), Done(0, [])]), OpFlush, OpFlush])
        == Run(b1, [OpInit([Fault(1), Done(0, [])]), OpFlush, OpFlush])
        == Run(b2, [OpFlush, OpFlush])
        == Run(b3, [OpFlush])
        == Run(b4, []);
  }
}
