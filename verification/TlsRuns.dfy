/**
 What holds of the TLS branch on every run, whatever the engine, the streams, the application and
 the connection's owner do, and wherever an observation of the loop stops.
 */
module TlsRuns {

  import opened Common
  import opened Engine
  import opened TlsModel
  import M = StreamModel
  import R = StreamRuns
  import P = PassThrough
  import S = Socket

  /** Every byte moved between the buffers has passed through the engine. */
  ghost predicate Linked(t: Tls) {
    && t.inside.stream.None?
    && R.Inv(t.ext)
    && R.Inv(t.inside)
    && t.inside.hist.passedOn == t.e.plainIn
    && t.ext.hist.appended == t.e.tlsOut
    && t.ext.hist.consumed == t.e.tlsIn
    && t.inside.hist.takenIn == t.e.plainOut
    && !t.e.shownEnd
  }

  /** At most one close_notify was sent, and only when the application had ended its output and all of
      it had been handed to the engine.  The protocol data was finished only after that. */
  ghost predicate Notified(t: Tls) {
    && t.e.notifications == |t.notices| == (if t.sentOutEof then 1 else 0)
    && (forall i :: 0 <= i < |t.notices| ==> Proper(t.notices[i]))
    && (t.e.notifiedAt.Some? <==> t.sentOutEof)
    && (t.e.notifiedAt.Some? ==> t.e.notifiedAt.value <= t.e.tlsOut)
    && (t.e.finishedAt.Some? <==> t.e.finishes > 0)
    && (t.e.finishedAt.Some? ==>
          t.e.notifiedAt.Some? && t.e.notifiedAt.value <= t.e.finishedAt.value <= t.e.tlsOut)
  }

  ghost predicate Proper(n: Notice) {
    n.outEof && n.out == [] && n.plainIn == n.appended
  }

  /** Unless the owner of the connection ended its output: it is told to close only once the protocol
      data was finished, and every shutdown came when the streams had accepted all of that. */
  ghost predicate Ordered(t: Tls, owner: bool) {
    owner || (
      && (t.ext.outEof || t.ext.hist.closes != [] ==> t.e.finishedAt.Some?)
      && (t.e.finishedAt.Some? ==>
            forall i :: 0 <= i < |t.ext.hist.closes| ==> t.e.finishedAt.value <= t.ext.hist.closes[i].sent))
  }

  /** What the wrapper makes of the reader's signals. */
  function EndOf(signals: seq<Signal>): Option<TlsEof> {
    if signals == [] then None
    else if signals[|signals| - 1].UncleanEnd? then Some(Abort) else Some(Close)
  }

  ghost predicate Ended(t: Tls) {
    t.inpEof == EndOf(t.e.signals) && (t.e.signals != [] ==> t.e.announcements > 0)
  }

  ghost predicate Settled(t: Tls) {
    t.e.afterWrite ==> !t.sentOutEof
  }

  ghost predicate Sound(t: Tls, owner: bool) {
    Linked(t) && Notified(t) && Ordered(t, owner) && Ended(t) && Settled(t)
  }

  // ---------------------------------------------------------------- what each step changes

  /** What a stretch of the loop does: only a finish makes the connection close; an end is signalled
      only after data was taken in and plaintext announced, and no data is taken in if there is none;
      the application's own history is left alone; what was put on the connection was offered to it. */
  ghost predicate Progress(t: Tls, u: Tls) {
    && t.e.finishes <= u.e.finishes
    && (u.ext.outEof <==> t.ext.outEof || u.e.finishes > t.e.finishes)
    && t.e.signals <= u.e.signals
    && t.e.announcements <= u.e.announcements
    && t.e.tlsIn <= u.e.tlsIn
    && (u.e.signals != t.e.signals ==> u.e.announcements > t.e.announcements && u.e.tlsIn != t.e.tlsIn)
    && (t.ext.unread == [] ==> u.ext.unread == [] && u.e.tlsIn == t.e.tlsIn)
    && u.inside.hist.appended == t.inside.hist.appended
    && u.inside.hist.consumed == t.inside.hist.consumed
    && (u.ext.hist.offered == u.ext.hist.appended
        || (u.ext.hist.offered == t.ext.hist.offered && u.ext.hist.appended == t.ext.hist.appended))
  }

  lemma ProgressTransitive(t: Tls, u: Tls, v: Tls)
    requires Progress(t, u) && Progress(u, v)
    ensures Progress(t, v)
  {
    if v.e.signals != t.e.signals && u.e.signals != t.e.signals {
      assert |v.e.tlsIn| >= |u.e.tlsIn| > |t.e.tlsIn|;
    }
  }

  // ---------------------------------------------------------------- the buffers

  lemma PassOnKeeps(b: M.Buf, n: nat)
    requires R.Inv(b) && b.stream.None? && n <= |b.out|
    ensures R.Inv(M.PassOn(b, n))
  {
    hide R.ClosesInv;
    R.SameCloses(b, M.PassOn(b, n));
    assert b.hist.passedOn + [] == b.hist.passedOn;
    assert b.hist.passedOn + b.out[..n] + [] == b.hist.passedOn + b.out[..n];
    R.Split(b.hist.passedOn, b.out, n);
  }

  lemma TakeInKeeps(b: M.Buf, data: seq<byte>)
    requires R.Inv(b) && b.stream.None?
    ensures R.Inv(M.TakeIn(b, data))
  {
    hide R.ClosesInv;
    R.SameCloses(b, M.TakeIn(b, data));
    assert b.hist.takenIn + [] == b.hist.takenIn && b.hist.takenIn + data + [] == b.hist.takenIn + data;
    assert b.hist.consumed + b.unread + data == b.hist.consumed + (b.unread + data);
  }

  /** A flush adds at most one shutdown, if output was to end, of all that was appended. */
  lemma FlushCloses(b: M.Buf)
    requires R.Inv(b)
    ensures var c := M.Flush(b).0;
            || c.hist.closes == b.hist.closes
            || (b.outEof && |c.hist.closes| == |b.hist.closes| + 1
                && c.hist.closes[..|b.hist.closes|] == b.hist.closes
                && c.hist.closes[|b.hist.closes|].sent == b.hist.appended)
  {
    R.FlushKeeps(b);
    FlushAddsOne(b);
  }

  lemma FlushAddsOne(b: M.Buf)
    ensures var c := M.Flush(b).0;
            || c.hist.closes == b.hist.closes
            || (b.outEof && |c.hist.closes| == |b.hist.closes| + 1
                && c.hist.closes[..|b.hist.closes|] == b.hist.closes
                && c.hist.closes[|b.hist.closes|].appended == b.hist.appended)
  {
    hide M.NodelayLoop, M.WriteLoop, M.FlushLoop, M.ShutdownLoop;
  }

  // ---------------------------------------------------------------- the branches

  lemma AskWriteKeeps(t: Tls, owner: bool)
    requires Sound(t, owner)
    ensures Sound(AskWrite(t), owner) && Progress(t, AskWrite(t))
  {
    hide R.Inv;
  }

  lemma AskReadKeeps(t: Tls, owner: bool)
    requires Sound(t, owner)
    ensures Sound(AskRead(t), owner) && Progress(t, AskRead(t))
  {
    hide R.Inv;
  }

  /** No protocol data was produced and nothing was closed. */
  ghost predicate SameOutput(t: Tls, u: Tls) {
    && u.sentOutEof == t.sentOutEof && u.notices == t.notices && u.e.tlsOut == t.e.tlsOut
    && u.e.notifications == t.e.notifications && u.e.notifiedAt == t.e.notifiedAt
    && u.e.finishes == t.e.finishes && u.e.finishedAt == t.e.finishedAt
    && u.ext.outEof == t.ext.outEof && u.ext.hist.closes == t.ext.hist.closes
  }

  lemma SameOrder(t: Tls, u: Tls, owner: bool)
    requires Notified(t) && Ordered(t, owner) && SameOutput(t, u)
    ensures Notified(u) && Ordered(u, owner)
  {
  }

  /** Protocol data has been put on the connection, and is yet to be flushed. */
  lemma AppendKeeps(t: Tls, owner: bool)
    requires Sound(t, owner) && t.e.WriteTls().1.Some?
    ensures var (e, data) := t.e.WriteTls();
            var u := t.(e := e, ext := M.Append(t.ext, data.value));
            Linked(u) && Notified(u) && Ordered(u, owner) && Ended(u) && u.e.afterWrite
  {
    hide R.Inv;
    var data := t.e.WriteTls().1.value;
    R.AppendKeeps(t.ext, data);
    assert t.e.tlsOut <= t.e.tlsOut + data;
  }

  lemma NoteFinishLinked(t: Tls)
    requires Linked(t)
    ensures Linked(NoteFinish(t))
  {
    hide R.Inv;
    if t.sentOutEof {
      R.SettingKeeps(t.ext, t.ext.(outEof := true));
    }
  }

  lemma NoteFinishKeeps(t: Tls, owner: bool)
    requires Linked(t) && Notified(t) && Ordered(t, owner) && Ended(t) && t.e.afterWrite
    ensures Sound(NoteFinish(t), owner)
    ensures var u := NoteFinish(t);
            && t.e.finishes <= u.e.finishes
            && (u.ext.outEof <==> t.ext.outEof || u.e.finishes > t.e.finishes)
            && u.ext == t.ext.(outEof := u.ext.outEof) && u.inside == t.inside
            && u.e == t.e.(script := u.e.script, afterWrite := u.e.afterWrite, wantsWrite := u.e.wantsWrite,
                           finishes := u.e.finishes, finishedAt := u.e.finishedAt)
  {
    hide R.Inv, Linked;
    NoteFinishLinked(t);
  }

  lemma FlushKeeps(t: Tls, owner: bool)
    requires Sound(t, owner)
    ensures Sound(t.(ext := M.Flush(t.ext).0), owner)
  {
    hide R.Inv, M.Flush;
    P.FlushFrame(t.ext);
    FlushCloses(t.ext);
    var c := M.Flush(t.ext).0;
    var n := |t.ext.hist.closes|;
    if !owner {
      forall i | 0 <= i < |c.hist.closes|
        ensures t.e.finishedAt.Some? && t.e.finishedAt.value <= c.hist.closes[i].sent
      {
        if i < n {
          assert c.hist.closes[i] == c.hist.closes[..n][i] || c.hist.closes == t.ext.hist.closes;
        }
      }
    }
  }

  lemma WriteBranchKeeps(t: Tls, owner: bool)
    requires Sound(t, owner)
    ensures Sound(WriteBranch(t).0, owner)
  {
    hide R.Inv, M.Flush, Linked, Notified, Ordered, M.Append, NoteFinish;
    var (e, data) := t.e.WriteTls();
    if data.None? {
      FailedCallKeeps(t, e, owner);
    } else {
      AppendKeeps(t, owner);
      var u := t.(e := e, ext := M.Append(t.ext, data.value));
      NoteFinishKeeps(u, owner);
      FlushKeeps(NoteFinish(u), owner);
    }
  }

  lemma WriteBranchProgress(t: Tls, owner: bool)
    requires Sound(t, owner)
    ensures Progress(t, WriteBranch(t).0)
  {
    hide R.Inv, M.Flush, NoteFinish;
    var (e, data) := t.e.WriteTls();
    if data.Some? {
      AppendKeeps(t, owner);
      var u := t.(e := e, ext := M.Append(t.ext, data.value));
      NoteFinishKeeps(u, owner);
      P.FlushFrame(NoteFinish(u).ext);
    }
  }

  /** A call that failed used up an answer and no more. */
  lemma FailedCallKeeps(t: Tls, e: Engine, owner: bool)
    requires Sound(t, owner) && e == t.e.(script := e.script, afterWrite := false)
    ensures Sound(t.(e := e), owner) && Progress(t, t.(e := e))
  {
    hide R.Inv;
  }

  lemma PlainBranchKeeps(t: Tls, owner: bool)
    requires Sound(t, owner)
    ensures Sound(PlainBranch(t).0, owner) && Progress(t, PlainBranch(t).0)
  {
    hide R.Inv;
    var (e, len) := t.e.WritePlain(t.inside.out);
    if len.None? {
      FailedCallKeeps(t, e, owner);
    } else {
      PassOnKeeps(t.inside, len.value);
    }
  }

  lemma CloseBranchKeeps(t: Tls, owner: bool)
    requires Sound(t, owner) && t.inside.outEof && t.inside.out == [] && !t.sentOutEof
    ensures Sound(CloseBranch(t), owner) && Progress(t, CloseBranch(t))
  {
    assert t.inside.hist.appended == t.e.plainIn by {
      assert t.inside.hist.passedOn + [] + [] == t.inside.hist.passedOn;
    }
    hide R.Inv;
  }

  /** There is protocol data to take in, so the engine is not shown an end. */
  lemma TakeTlsKeeps(t: Tls, owner: bool)
    requires Sound(t, owner) && t.ext.unread != []
    ensures Sound(TakeTls(t).0, owner) && Progress(t, TakeTls(t).0)
    ensures TakeTls(t).1.None? ==> |TakeTls(t).0.e.tlsIn| > |t.e.tlsIn|
    ensures TakeTls(t).0.e.signals == t.e.signals
  {
    hide R.Inv;
    var (e, room) := t.e.ReadRoom();
    if room.None? {
      FailedCallKeeps(t, e, owner);
    } else {
      R.ReadBytesKeeps(t.ext, room.value);
    }
  }

  lemma ReadOneLinked(t: Tls, room: nat)
    requires Linked(t)
    ensures Linked(ReadOne(t, room).0)
  {
    hide R.Inv;
    var (e, plain) := t.e.ReadPlain(room);
    if plain.Data? {
      TakeInKeeps(t.inside, plain.bytes);
    }
  }

  lemma ReadOneFrame(t: Tls, room: nat)
    ensures ReadOnly(t, ReadOne(t, room).0)
    ensures SameOutput(t, ReadOne(t, room).0)
    ensures !ReadOne(t, room).0.e.afterWrite
  {
  }

  lemma ReadOneEnded(t: Tls, room: nat)
    requires Ended(t) && t.e.announcements > 0
    ensures Ended(ReadOne(t, room).0)
  {
    hide M.TakeIn;
  }

  lemma ReadOneKeeps(t: Tls, room: nat, owner: bool)
    requires Sound(t, owner) && t.e.announcements > 0
    ensures var u := ReadOne(t, room).0;
            && Sound(u, owner)
            && ReadOnly(t, u)
  {
    hide ReadOne, Linked, Notified, Ordered, Ended;
    ReadOneLinked(t, room);
    ReadOneFrame(t, room);
    ReadOneEnded(t, room);
    SameOrder(t, ReadOne(t, room).0, owner);
  }

  /** Reading plaintext changes nothing on the connection's side, and only adds signals. */
  ghost predicate ReadOnly(t: Tls, u: Tls) {
    && u.ext == t.ext
    && t.e.signals <= u.e.signals
    && u.e.finishes == t.e.finishes && u.e.announcements == t.e.announcements && u.e.tlsIn == t.e.tlsIn
    && u.inside.hist.appended == t.inside.hist.appended
    && u.inside.hist.consumed == t.inside.hist.consumed
  }

  lemma {:induction false} DrainKeeps(t: Tls, room: nat, fuel: nat, owner: bool)
    requires Sound(t, owner) && t.e.announcements > 0
    ensures var (u, stop) := DrainPlain(t, room, fuel);
            && Sound(u, owner)
            && ReadOnly(t, u)
            && (stop.Some? ==> !stop.value.Eof?)
    decreases fuel
  {
    hide Sound, ReadOne;
    if fuel != 0 {
      ReadOneKeeps(t, room, owner);
      var (u, plain) := ReadOne(t, room);
      if plain.CutShort? {
        DrainKeeps(u, room, fuel - 1, owner);
      } else if plain.Data? {
        ReadFits(t, room);
        DrainKeeps(u, room - |plain.bytes|, fuel - 1, owner);
      }
    }
  }

  lemma ReadFits(t: Tls, room: nat)
    ensures ReadOne(t, room).1.Data? ==> |ReadOne(t, room).1.bytes| <= room
  {
  }

  lemma AnnounceKeeps(t: Tls, owner: bool)
    requires Sound(t, owner)
    ensures Sound(t.(e := t.e.ProcessNewPackets().0), owner)
  {
    hide R.Inv, Notified, Ordered;
    SameOrder(t, t.(e := t.e.ProcessNewPackets().0), owner);
  }

  lemma PacketsKeeps(t: Tls, slack: nat, fuel: nat, owner: bool)
    requires Sound(t, owner)
    ensures var (u, stop) := Packets(t, slack, fuel);
            && Sound(u, owner)
            && ReadOnly(t.(e := t.e.(announcements := u.e.announcements)), u)
            && t.e.announcements <= u.e.announcements
            && (u.e.signals != t.e.signals ==> u.e.announcements > t.e.announcements)
            && (stop.Some? ==> !stop.value.Eof?)
  {
    hide Sound, DrainPlain;
    AnnounceKeeps(t, owner);
    var (e, readLen) := t.e.ProcessNewPackets();
    var u := t.(e := e);
    if readLen.Some? && readLen.value > 0 {
      DrainKeeps(u, readLen.value + slack, fuel, owner);
    }
  }

  lemma ReadBranchKeeps(t: Tls, slack: nat, fuel: nat, owner: bool)
    requires Sound(t, owner) && t.ext.unread != []
    ensures Sound(ReadBranch(t, slack, fuel).0, owner) && Progress(t, ReadBranch(t, slack, fuel).0)
    ensures ReadBranch(t, slack, fuel).1.Some? ==> !ReadBranch(t, slack, fuel).1.value.Eof?
  {
    hide Sound, TakeTls, Packets;
    TakeTlsKeeps(t, owner);
    var (u, failed) := TakeTls(t);
    if failed.Some? {
      TakeTlsFails(t);
    } else {
      PacketsKeeps(u, slack, fuel, owner);
    }
  }

  lemma TakeTlsFails(t: Tls)
    ensures TakeTls(t).1.Some? ==> TakeTls(t).1 == Some(TlsError)
  {
  }

  // ---------------------------------------------------------------- rounds, calls, runs

  /** When the loop ends by itself there is nothing left that it could do. */
  ghost predicate NothingLeft(u: Tls) {
    && u.inside.out == [] && (u.inside.outEof ==> u.sentOutEof)
    && !u.e.wantsWrite && (u.ext.unread == [] || !u.e.wantsRead)
  }

  lemma RoundKeeps(t: Tls, slack: nat, fuel: nat, owner: bool)
    requires Sound(t, owner)
    ensures var (u, stop) := Round(t, slack, fuel);
            && Sound(u, owner)
            && Progress(t, u)
            && (stop.Some? && stop.value.Eof? ==> stop.value.state == u.inpEof && NothingLeft(u))
  {
    hide Sound, Progress, WriteBranch, PlainBranch, CloseBranch, ReadBranch;
    AskWriteKeeps(t, owner);
    var u := AskWrite(t);
    if u.e.wantsWrite {
      WriteBranchKeeps(u, owner);
      WriteBranchProgress(u, owner);
      BranchesGoOn(u);
      ProgressTransitive(t, u, WriteBranch(u).0);
    } else if u.inside.out != [] {
      PlainBranchKeeps(u, owner);
      BranchesGoOn(u);
      ProgressTransitive(t, u, PlainBranch(u).0);
    } else if u.inside.outEof && !u.sentOutEof {
      CloseBranchKeeps(u, owner);
      ProgressTransitive(t, u, CloseBranch(u));
    } else {
      AskReadKeeps(u, owner);
      var v := AskRead(u);
      ProgressTransitive(t, u, v);
      if v.e.wantsRead && v.ext.unread != [] {
        ReadBranchKeeps(v, slack, fuel, owner);
        ProgressTransitive(t, v, ReadBranch(v, slack, fuel).0);
      }
    }
  }

  lemma BranchesGoOn(t: Tls)
    ensures WriteBranch(t).1.Some? ==> WriteBranch(t).1 == Some(TlsError)
    ensures PlainBranch(t).1.Some? ==> PlainBranch(t).1 == Some(TlsError)
  {
    hide M.Flush, NoteFinish;
  }

  /** What one call of `process` keeps and does, wherever its observation stops. */
  lemma {:induction false} PumpKeeps(t: Tls, slacks: seq<nat>, fuel: nat, owner: bool)
    requires Sound(t, owner)
    ensures var (u, r) := Pump(t, slacks, fuel);
            && Sound(u, owner)
            && Progress(t, u)
            && (r.Eof? ==> r.state == u.inpEof && NothingLeft(u))
    decreases |slacks|
  {
    hide Sound, Round, NothingLeft;
    if slacks == [] {
      assert Progress(t, t);
    } else {
      RoundKeeps(t, slacks[0], fuel, owner);
      var (u, stop) := Round(t, slacks[0], fuel);
      if stop.None? {
        PumpKeeps(u, slacks[1..], fuel, owner);
        ProgressTransitive(t, u, Pump(u, slacks[1..], fuel).0);
      }
    }
  }

  /** The owner of the connection ends its output itself. */
  predicate EndsOutput(op: P.Op) {
    op.OnExt? && op.op.OpSetOutEof? && op.op.flag
  }

  lemma ExtStepKeeps(t: Tls, op: P.Op, owner: bool)
    requires Sound(t, owner) && P.Proper(op) && op.OnExt?
    ensures Sound(t.(ext := M.Step(t.ext, op.op).0), owner || EndsOutput(op))
  {
    hide R.Inv, M.Step, M.Flush;
    P.ExtFrame(t.ext, op.op);
    if op.op.OpFlush? {
      FlushKeeps(t, owner);
      StepIsFlush(t.ext);
    } else {
      ExtCloses(t.ext, op.op);
    }
  }

  lemma StepIsFlush(b: M.Buf)
    ensures M.Step(b, M.OpFlush).0 == M.Flush(b).0
  {
    hide M.Flush;
  }

  lemma InitCloses(b: M.Buf, script: seq<S.Reply>)
    ensures M.Init(b, script).hist.closes == M.Retire(b).hist.closes == b.hist.closes
    ensures M.Init(b, script).outEof == M.Retire(b).outEof == b.outEof
  {
  }

  lemma ReadCloses(b: M.Buf, max: nat)
    ensures M.Read(b, max).0.hist.closes == b.hist.closes && M.Read(b, max).0.outEof == b.outEof
  {
    hide M.ReadLoop;
  }

  lemma ExtCloses(b: M.Buf, op: M.Op)
    requires !op.OpFlush? && !op.OpAppend? && !op.OpReadBytes?
    ensures M.Step(b, op).0.hist.closes == b.hist.closes
    ensures M.Step(b, op).0.outEof == if op.OpSetOutEof? then op.flag else b.outEof
  {
    hide M.Flush, M.Read, M.Init, M.Retire, M.ReadBytes, M.Append;
    match op
    case OpInit(script) => InitCloses(b, script);
    case OpDeinit => InitCloses(b, []);
    case OpRead(max) => ReadCloses(b, max);
    case _ =>
  }

  lemma InsideStepKeeps(t: Tls, op: P.Op, owner: bool)
    requires Sound(t, owner) && P.Proper(op) && op.OnInside?
    ensures Sound(t.(inside := M.Step(t.inside, op.op).0), owner)
  {
    hide R.Inv, M.Step;
    P.InsideFrame(t.inside, op.op);
  }

  lemma StepKeeps(t: Tls, op: P.Op, slacks: seq<nat>, fuel: nat, owner: bool)
    requires Sound(t, owner) && P.Proper(op)
    ensures Sound(Step(t, op, slacks, fuel).0, owner || EndsOutput(op))
  {
    hide Sound, Pump, M.Step;
    match op
    case CallProcess => PumpKeeps(t, slacks, fuel, owner);
    case OnExt(_) => ExtStepKeeps(t, op, owner);
    case OnInside(_) => InsideStepKeeps(t, op, owner);
  }

  ghost predicate OwnerEnds(ops: seq<P.Op>) {
    exists i :: 0 <= i < |ops| && EndsOutput(ops[i])
  }

  lemma OpenInv(config: seq<Reply>)
    ensures Sound(Open(config), false)
  {
    R.EmptyInv();
  }

  lemma {:induction false} RunKeeps(config: seq<Reply>, ops: seq<P.Op>, slacks: seq<seq<nat>>, fuel: nat)
    requires |slacks| == |ops| && P.AllProper(ops)
    ensures Sound(Run(Open(config), ops, slacks, fuel), OwnerEnds(ops))
    decreases |ops|
  {
    hide Sound, Step;
    OpenInv(config);
    if ops != [] {
      var n := |ops| - 1;
      assert forall i :: 0 <= i < n ==> ops[..n][i] == ops[i];
      RunKeeps(config, ops[..n], slacks[..n], fuel);
      StepKeeps(Run(Open(config), ops[..n], slacks[..n], fuel), ops[n], slacks[n], fuel, OwnerEnds(ops[..n]));
      assert OwnerEnds(ops) <==> OwnerEnds(ops[..n]) || EndsOutput(ops[n]);
    } else {
      assert !OwnerEnds(ops);
    }
  }

  // ---------------------------------------------------------------- end to end

  /** What an operation adds to what the application has written and to what it was given. */
  lemma StepEffect(t: Tls, op: P.Op, slacks: seq<nat>, fuel: nat, owner: bool)
    requires Sound(t, owner) && P.Proper(op)
    ensures var (u, out) := Step(t, op, slacks, fuel);
            && u.inside.hist.appended == t.inside.hist.appended + P.Written(op)
            && u.inside.hist.consumed == t.inside.hist.consumed + P.Taken(op, out)
  {
    hide Sound, Pump, M.Step;
    assert t.inside.hist.appended + [] == t.inside.hist.appended;
    assert t.inside.hist.consumed + [] == t.inside.hist.consumed;
    match op
    case CallProcess => PumpKeeps(t, slacks, fuel, owner);
    case OnExt(_) =>
    case OnInside(o) => P.InsideEffect<Result>(t.inside, o);
  }

  lemma {:induction false} RunEffect(config: seq<Reply>, ops: seq<P.Op>, slacks: seq<seq<nat>>, fuel: nat)
    requires |slacks| == |ops| && P.AllProper(ops)
    ensures var z := Run(Open(config), ops, slacks, fuel);
            && z.inside.hist.appended == P.WrittenBy(ops)
            && z.inside.hist.consumed == P.TakenFrom(ops, Outcomes(Open(config), ops, slacks, fuel))
    decreases |ops|
  {
    hide Sound, Step;
    if ops != [] {
      var n := |ops| - 1;
      assert forall i :: 0 <= i < n ==> ops[..n][i] == ops[i];
      RunEffect(config, ops[..n], slacks[..n], fuel);
      RunKeeps(config, ops[..n], slacks[..n], fuel);
      StepEffect(Run(Open(config), ops[..n], slacks[..n], fuel), ops[n], slacks[n], fuel, OwnerEnds(ops[..n]));
      var outs := Outcomes(Open(config), ops, slacks, fuel);
      assert outs[..n] == Outcomes(Open(config), ops[..n], slacks[..n], fuel);
    }
  }

  /** On every run: what the application wrote is the plaintext the engine has accepted, followed by
      what waits; the plaintext the engine has handed out is what the application was given, followed
      by what waits; the streams have accepted the engine's protocol data but for what waits; and the
      engine has taken in what the streams delivered but for what waits. */
  lemma EndToEnd(config: seq<Reply>, ops: seq<P.Op>, slacks: seq<seq<nat>>, fuel: nat)
    requires |slacks| == |ops| && P.AllProper(ops)
    ensures var z := Run(Open(config), ops, slacks, fuel);
            && P.WrittenBy(ops) == z.e.plainIn + z.inside.out
            && z.e.plainOut == P.TakenFrom(ops, Outcomes(Open(config), ops, slacks, fuel)) + z.inside.unread
            && z.e.tlsOut == M.Sent(z.ext) + z.ext.out
            && M.Received(z.ext) == z.e.tlsIn + z.ext.unread
  {
    RunKeeps(config, ops, slacks, fuel);
    RunEffect(config, ops, slacks, fuel);
    hide Run, Outcomes;
    var z := Run(Open(config), ops, slacks, fuel);
    assert z.inside.hist.passedOn + [] == z.inside.hist.passedOn;
    assert z.inside.hist.takenIn + [] == z.inside.hist.takenIn;
  }

  // ---------------------------------------------------------------- closing, in order

  /** On every run close_notify is sent at most once, when the application has ended its output and the
      engine has accepted all of it.  Unless the owner of the connection ends its output, it is told to
      close only after close_notify, once a write left nothing more to write; and every shutdown came
      when the streams had accepted all the protocol data there was, up to that point at least. */
  lemma CloseOrder(config: seq<Reply>, ops: seq<P.Op>, slacks: seq<seq<nat>>, fuel: nat)
    requires |slacks| == |ops| && P.AllProper(ops)
    ensures var z := Run(Open(config), ops, slacks, fuel);
            && z.e.notifications == |z.notices| <= 1
            && (forall i :: 0 <= i < |z.notices| ==> Proper(z.notices[i]))
            && (forall i :: 0 <= i < |z.ext.hist.closes| ==> z.ext.hist.closes[i].sent == z.ext.hist.closes[i].appended)
    ensures var z := Run(Open(config), ops, slacks, fuel);
            !OwnerEnds(ops) && (z.ext.outEof || z.ext.hist.closes != []) ==>
              && z.e.notifications == 1 && z.e.notifiedAt.Some? && z.e.finishedAt.Some?
              && z.e.notifiedAt.value <= z.e.finishedAt.value <= z.e.tlsOut
              && forall i :: 0 <= i < |z.ext.hist.closes| ==> z.e.finishedAt.value <= z.ext.hist.closes[i].sent
  {
    RunKeeps(config, ops, slacks, fuel);
    hide Run;
  }

  /** What one call does about the end of the output: the connection is told to close exactly when it
      was already, or a write after close_notify left nothing more to write; and when the call ends by
      itself, output that has ended has been followed by close_notify. */
  lemma CallCloses(t: Tls, slacks: seq<nat>, fuel: nat, owner: bool)
    requires Sound(t, owner)
    ensures var (u, r) := Pump(t, slacks, fuel);
            && (u.ext.outEof <==> t.ext.outEof || u.e.finishes > t.e.finishes)
            && (u.e.finishes > 0 ==> u.e.notifications == 1 && u.sentOutEof)
            && (r.Eof? ==> u.inside.out == [] && (u.inside.outEof ==> u.e.notifications == 1))
            && (u.ext.hist.offered == u.ext.hist.appended || u.ext.hist.appended == t.ext.hist.appended)
  {
    PumpKeeps(t, slacks, fuel, owner);
    hide Pump, R.Inv;
  }
}
