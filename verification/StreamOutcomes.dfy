/**
 What the operations of the stream buffer answer and move, in terms of the answers of the stream alone,
 and what a run comes to in terms of its operations alone.
 */
module StreamOutcomes {

  import opened Common
  import opened Socket
  import opened StreamModel
  import opened StreamRuns

  // ---------------------------------------------------------------- the answers of a stream

  /** What is left of a script after the first answer that is not an interruption. */
  function Beyond(script: seq<Reply>): seq<Reply> {
    if script == [] then [] else if script[0].Interrupted? then Beyond(script[1..]) else script[1..]
  }

  /** How many of `n` bytes the answers to a write of `n`, `n - ...` bytes accept until one accepts nothing. */
  function Accepts(script: seq<Reply>, n: nat): (m: nat)
    ensures m <= n
    decreases |script|
  {
    if n == 0 || script == [] then 0
    else if script[0].Interrupted? then Accepts(script[1..], n)
    else if script[0].Done? && script[0].count > 0 then
      if script[0].count >= n then n else script[0].count + Accepts(script[1..], n - script[0].count)
    else 0
  }

  /** The answers that remain when a write of `n` bytes has come to its end, with the one that accepted
      nothing still to come. */
  function AfterAccepts(script: seq<Reply>, n: nat): seq<Reply>
    decreases |script|
  {
    if n == 0 || script == [] then script
    else if script[0].Interrupted? then AfterAccepts(script[1..], n)
    else if script[0].Done? && script[0].count > 0 then
      if script[0].count >= n then script[1..] else AfterAccepts(script[1..], n - script[0].count)
    else script
  }

  // ---------------------------------------------------------------- what a flush comes to

  predicate Active(b: Buf) {
    !b.pause && b.stream.Some?
  }

  /** A pending change of TCP_NODELAY is accepted, or there is none. */
  predicate SettingAccepted(b: Buf)
    requires b.stream.Some?
  {
    b.pendingNodelay ==> Answer(b.stream.value.script).Done?
  }

  /** The answers that the writes meet. */
  function ToWrites(b: Buf): seq<Reply>
    requires b.stream.Some?
  {
    if b.pendingNodelay then Beyond(b.stream.value.script) else b.stream.value.script
  }

  /** How much of the output is accepted, if it comes to writing. */
  function AcceptedOf(b: Buf): (n: nat)
    requires b.stream.Some?
    ensures n <= |b.out|
  {
    Accepts(ToWrites(b), |b.out|)
  }

  function AfterWrites(b: Buf): seq<Reply>
    requires b.stream.Some?
  {
    AfterAccepts(ToWrites(b), |b.out|)
  }

  /** The answers that the stream's own flush meets: a write that accepted nothing has used up one more. */
  function ToFlush(b: Buf): seq<Reply>
    requires b.stream.Some?
  {
    if AcceptedOf(b) < |b.out| then Beyond(AfterWrites(b)) else AfterWrites(b)
  }

  /** The answer that decides a flush: the first that refuses something asked for, or the last one. */
  function Deciding(b: Buf): Reply
    requires b.stream.Some?
  {
    if !SettingAccepted(b) then Answer(b.stream.value.script)
    else if AcceptedOf(b) < |b.out| && !Answer(AfterWrites(b)).Done? then Answer(AfterWrites(b))
    else if Answer(ToFlush(b)).Done? && b.outEof && !b.sentOutEof && AcceptedOf(b) == |b.out|
    then Answer(Beyond(ToFlush(b)))
    else Answer(ToFlush(b))
  }

  /** What a stage of a flush makes of the answer it came to. */
  predicate ExitFor(exit: Exit, answer: Reply) {
    match answer
    case Done(_, _) => exit == Proceed
    case Fault(code) => exit == Return(Some(Other(code)))
    case _ => exit == Return(None)
  }

  lemma {:induction false} NodelayLoopExit(s: Sock, flag: bool)
    ensures var (t, exit) := NodelayLoop(s, flag);
            var answer := Answer(s.script);
            && t.script == Beyond(s.script) && t.accepted == s.accepted && t.shutdowns == s.shutdowns
            && (if answer.WouldBlock? then exit == Return(Some(WouldBlockError)) else ExitFor(exit, answer))
    decreases |s.script|
  {
    var (t, io) := s.SetNodelay(flag);
    if io.Again? {
      NodelayLoopExit(t, flag);
    }
  }

  lemma {:induction false} FlushLoopExit(s: Sock)
    ensures var (t, exit) := FlushLoop(s);
            && t.script == Beyond(s.script) && t.accepted == s.accepted && t.shutdowns == s.shutdowns
            && ExitFor(exit, Answer(s.script))
    decreases |s.script|
  {
    var (t, io) := s.Flush();
    if io.Again? {
      FlushLoopExit(t);
    }
  }

  lemma {:induction false} ShutdownLoopExit(s: Sock)
    ensures var (t, exit) := ShutdownLoop(s);
            && t.accepted == s.accepted
            && t.shutdowns == s.shutdowns + (if exit.Proceed? then 1 else 0)
            && ExitFor(exit, Answer(s.script))
    decreases |s.script|
  {
    var (t, io) := s.ShutdownWrite();
    if io.Again? {
      ShutdownLoopExit(t);
    }
  }

  /** What the write loop comes to from `s` with the output `out`. */
  ghost predicate Wrote(s: Sock, out: seq<byte>, t: Sock, left: seq<byte>, exit: Exit) {
    var n := Accepts(s.script, |out|);
    var after := AfterAccepts(s.script, |out|);
    && left == out[n..] && t.accepted == s.accepted + out[..n] && t.shutdowns == s.shutdowns
    && (if n < |out| then t.script == Beyond(after) && ExitFor(exit, Answer(after))
        else t.script == after && exit == Proceed)
  }

  lemma WroteNothing(s: Sock, out: seq<byte>)
    requires out != [] && Accepts(s.script, |out|) == 0 && AfterAccepts(s.script, |out|) == s.script
    requires s.Next() == Answer(s.script) && (s.Next().Done? ==> s.Next().count == 0) && !s.Next().Interrupted?
    ensures var (t, left, exit) := WriteLoop(s, out);
            Wrote(s, out, t, left, exit)
  {
    assert s.accepted + [] == s.accepted;
  }

  lemma WroteSome(s: Sock, out: seq<byte>, u: Sock, k: nat, t: Sock, left: seq<byte>, exit: Exit)
    requires 0 < k <= |out| && s.script != [] && s.script[0].Done? && s.script[0].count > 0
    requires k == if s.script[0].count < |out| then s.script[0].count else |out|
    requires u.script == s.script[1..] && u.accepted == s.accepted + out[..k] && u.shutdowns == s.shutdowns
    requires Wrote(u, out[k..], t, left, exit)
    ensures Wrote(s, out, t, left, exit)
  {
    WroteOn(s.script, |out|);
    hide Accepts, AfterAccepts;
    var m := Accepts(u.script, |out| - k);
    assert out[..k] + out[k..][..m] == out[..k + m];
    assert out[k..][m..] == out[k + m..];
  }

  lemma {:induction false} WriteLoopExit(s: Sock, out: seq<byte>)
    ensures var (t, left, exit) := WriteLoop(s, out);
            Wrote(s, out, t, left, exit)
    decreases |out|, |s.script|
  {
    if out == [] {
      assert s.accepted + [] == s.accepted;
    } else {
      var (u, io) := s.Write(out);
      if io.Again? {
        WriteLoopExit(u, out);
      } else if io.Ok? && io.value > 0 {
        WriteLoopExit(u, out[io.value..]);
        var (t, left, exit) := WriteLoop(s, out);
        WroteSome(s, out, u, io.value, t, left, exit);
      } else {
        WroteNothing(s, out);
      }
    }
  }

  /** After an answer that accepts something. */
  lemma WroteOn(script: seq<Reply>, n: nat)
    requires script != [] && script[0].Done? && script[0].count > 0 && n > 0
    ensures var k := if script[0].count < n then script[0].count else n;
            && Accepts(script, n) == k + Accepts(script[1..], n - k)
            && AfterAccepts(script, n) == AfterAccepts(script[1..], n - k)
  {
  }

  /** The state after the setting has been dealt with. */
  lemma NodelayStageExit(b: Buf)
    requires b.stream.Some?
    ensures var (c, exit) := NodelayStage(b);
            && c.stream.Some? && c.out == b.out && c.outEof == b.outEof && c.sentOutEof == b.sentOutEof
            && c.stream.value.accepted == b.stream.value.accepted
            && c.stream.value.shutdowns == b.stream.value.shutdowns
            && c.stream.value.script == ToWrites(b)
            && (SettingAccepted(b) <==> exit == Proceed)
            && (!SettingAccepted(b) ==>
                  var answer := Answer(b.stream.value.script);
                  if answer.WouldBlock? then exit == Return(Some(WouldBlockError)) else ExitFor(exit, answer))
  {
    hide NodelayLoop;
    if b.pendingNodelay {
      NodelayLoopExit(b.stream.value, b.nodelay);
    }
  }

  /** The later stages, from a state whose stream is about to meet the writes. */
  lemma LaterStagesExit(b: Buf, b1: Buf)
    requires b.stream.Some? && b1.stream.Some? && SettingAccepted(b) && NodelayStage(b) == (b1, Proceed)
    requires b1.out == b.out && b1.outEof == b.outEof && b1.sentOutEof == b.sentOutEof
    requires b1.stream.value.script == ToWrites(b)
    ensures var (c, exit) := Stages(b);
            var n := AcceptedOf(b);
            && ExitFor(exit, Deciding(b))
            && c.out == b.out[n..] && c.stream.Some?
            && c.stream.value.accepted == b1.stream.value.accepted + b.out[..n]
            && (c.sentOutEof <==> b.sentOutEof || (Deciding(b).Done? && b.outEof && n == |b.out|))
            && c.stream.value.shutdowns
               == b1.stream.value.shutdowns + (if c.sentOutEof && !b.sentOutEof then 1 else 0)
  {
    hide NodelayStage, WriteLoop, FlushLoop, ShutdownLoop, Accepts, AfterAccepts, Beyond, Answer, ToWrites;
    WriteLoopExit(b1.stream.value, b1.out);
    var (b2, e2) := WriteStage(b1);
    if e2.Proceed? {
      FlushLoopExit(b2.stream.value);
      var (b3, e3) := FlushStage(b2);
      if e3.Proceed? {
        ShutdownLoopExit(b3.stream.value);
      }
    }
  }

  lemma {:induction false} AnswerIsFinal(script: seq<Reply>)
    ensures !Answer(script).Interrupted?
  {
    if script != [] && script[0].Interrupted? {
      AnswerIsFinal(script[1..]);
    }
  }

  lemma DecidingIsFinal(b: Buf)
    requires b.stream.Some?
    ensures !Deciding(b).Interrupted?
  {
    hide Answer;
    AnswerIsFinal(b.stream.value.script);
    AnswerIsFinal(AfterWrites(b));
    AnswerIsFinal(ToFlush(b));
    AnswerIsFinal(Beyond(ToFlush(b)));
  }

  /** What a flush comes to from `b`, the stream being there and writes not being paused. */
  ghost predicate Flushed(b: Buf, c: Buf, error: Option<IoError>)
    requires b.stream.Some?
  {
    var n := if SettingAccepted(b) then AcceptedOf(b) else 0;
    && c.out == b.out[n..] && c.stream.Some?
    && c.stream.value.accepted == b.stream.value.accepted + b.out[..n]
    && (c.sentOutEof <==>
          b.sentOutEof || (SettingAccepted(b) && Deciding(b).Done? && b.outEof && n == |b.out|))
    && c.stream.value.shutdowns == b.stream.value.shutdowns + (if c.sentOutEof && !b.sentOutEof then 1 else 0)
    && (forall code :: error == Some(Other(code)) <==> Deciding(b) == Fault(code))
    && (error == Some(WouldBlockError) <==> !SettingAccepted(b) && Deciding(b).WouldBlock?)
    && (error == None <==> Deciding(b).Done? || (SettingAccepted(b) && Deciding(b).WouldBlock?))
  }

  lemma StagesExit(b: Buf)
    requires b.stream.Some?
    ensures var (c, exit) := Stages(b);
            Flushed(b, c, if exit.Return? then exit.error else None)
  {
    NodelayStageExit(b);
    DecidingIsFinal(b);
    if SettingAccepted(b) {
      hide NodelayStage, Stages, AcceptedOf, Deciding, ToWrites, SettingAccepted;
      LaterStagesExit(b, NodelayStage(b).0);
    } else {
      RefusedAtOnce(b);
      assert b.stream.value.accepted + [] == b.stream.value.accepted;
    }
  }

  lemma RefusedAtOnce(b: Buf)
    requires b.stream.Some?
    ensures NodelayStage(b).1.Return? ==> Stages(b) == NodelayStage(b)
  {
    hide NodelayStage, WriteStage, FlushStage, ShutdownStage;
  }

  /** What a flush does, for every stream, in terms of its answers: how much output it accepts, whether its
      output side is shut down, and what is returned.  Paused or without a stream, nothing happens. */
  lemma FlushAnswers(b: Buf)
    ensures var (c, error) := Flush(b);
            && Step(b, OpFlush) == (c, StreamModel.Flushed(error))
            && if Active(b) then Flushed(b, c, error) else error == None && c == b.(hist := c.hist)
  {
    hide Stages, Answer, Accepts, AfterAccepts, Beyond;
    if Active(b) {
      StagesExit(b.(hist := b.hist.(offered := b.hist.appended)));
    }
  }

  /** A flush reports an error, whatever has been recorded: the stream fails something asked of it, or would
      block on the setting. */
  predicate FlushFails(b: Buf) {
    Active(b) && (Deciding(b).Fault? || (!SettingAccepted(b) && Deciding(b).WouldBlock?))
  }

  lemma FlushFailsIff(b: Buf)
    ensures Flush(b).1.Some? <==> FlushFails(b)
  {
    hide Deciding, SettingAccepted, AcceptedOf, Flush;
    FlushAnswers(b);
    if Active(b) {
      DecidingIsFinal(b);
    }
  }

  // ---------------------------------------------------------------- what a read comes to

  lemma {:induction false} ReadLoopExit(s: Sock, max: nat)
    ensures var io := ReadLoop(s, max).1;
            match Answer(s.script)
            case Done(_, data) => io == Ok(if |data| < max then data else data[..max])
            case Fault(code) => io == Failed(code)
            case _ => io == Blocked
    decreases |s.script|
  {
    var (t, io) := s.Read(max);
    if io.Again? {
      ReadLoopExit(t, max);
    }
  }

  /** What a read does, for every stream: it takes as much of the data in the stream's answer as was asked
      for.  None of it means the end, unless the stream had nothing to say, or an error. */
  lemma ReadAnswers(b: Buf, max: nat)
    ensures var (c, status) := Read(b, max);
            var answer := if b.stream.Some? then Answer(b.stream.value.script) else WouldBlock;
            var n := if answer.Done? then (if |answer.data| < max then |answer.data| else max) else 0;
            && Step(b, OpRead(max)) == (c, Status(status))
            && c.unread == b.unread + (if answer.Done? then answer.data[..n] else [])
            && (status == NoData <==> answer.WouldBlock?)
            && (forall code :: status == ReadError(code) <==> answer == Fault(code))
            && (status == EndOfStream <==> answer.Done? && n == 0)
            && (status == NewData <==> answer.Done? && n > 0)
            && (c.inpEof <==> b.inpEof || (answer.Done? && n == 0))
            && c.out == b.out && c.outEof == b.outEof
  {
    if b.stream.Some? {
      ReadLoopExit(b.stream.value, max);
      AnswerIsFinal(b.stream.value.script);
    }
    hide ReadLoop, Answer;
    assert b.unread + [] == b.unread;
  }

  /** What the `Read` implementation does: it hands out as many of the first unread bytes as there are and
      there is room for; with none unread it reports the end, or that there is nothing yet. */
  lemma ReadBytesAnswers(b: Buf, room: nat)
    ensures var (c, data) := ReadBytes(b, room);
            && Step(b, OpReadBytes(room)) == (c, Bytes(data))
            && (data == None <==> b.unread == [] && !b.inpEof)
            && (data.Some? ==>
                  && data.value + c.unread == b.unread
                  && (|data.value| == room || c.unread == []) && |data.value| <= room)
            && (data.None? ==> c == b)
            && c == b.(unread := c.unread, hist := c.hist)
  {
    hide Flush, Read, Init, Retire, SetNodelay, Append;
  }

  // ---------------------------------------------------------------- what a run comes to

  /** What the operations append, and what those that read are given. */
  function AppendedBy(ops: seq<Op>): seq<byte>
    decreases ops
  {
    if ops == [] then [] else (if ops[0].OpAppend? then ops[0].data else []) + AppendedBy(ops[1..])
  }

  function GivenTo(ops: seq<Op>, outs: seq<Outcome>): seq<byte>
    requires |ops| == |outs|
    decreases ops
  {
    if ops == [] then [] else
      (if ops[0].OpReadBytes? && outs[0].Bytes? && outs[0].data.Some? then outs[0].data.value else [])
      + GivenTo(ops[1..], outs[1..])
  }

  /** The settings that the operations leave behind. */
  datatype Settings = Settings(nodelay: bool, pause: bool, outEof: bool, attached: bool)

  function Set(v: Settings, op: Op): Settings {
    match op
    case OpInit(_) => v.(attached := true)
    case OpDeinit => v.(attached := false)
    case OpSetNodelay(flag) => v.(nodelay := flag)
    case OpPauseWrites(flag) => v.(pause := flag)
    case OpSetOutEof(flag) => v.(outEof := flag)
    case _ => v
  }

  function SettingsAfter(v: Settings, ops: seq<Op>): Settings
    decreases ops
  {
    if ops == [] then v else SettingsAfter(Set(v, ops[0]), ops[1..])
  }

  function SettingsOf(b: Buf): Settings {
    Settings(b.nodelay, b.pause, b.outEof, b.stream.Some?)
  }

  /** The settings stay, and nothing is appended or handed out. */
  ghost predicate Undisturbed(b: Buf, c: Buf) {
    && SettingsOf(c) == SettingsOf(b)
    && c.hist.appended == b.hist.appended && c.hist.consumed == b.hist.consumed
  }

  lemma StageSettings(b: Buf)
    requires b.stream.Some?
    ensures Undisturbed(b, NodelayStage(b).0) && Undisturbed(b, WriteStage(b).0)
    ensures Undisturbed(b, FlushStage(b).0) && Undisturbed(b, ShutdownStage(b).0)
  {
    hide NodelayLoop, WriteLoop, FlushLoop, ShutdownLoop;
  }

  lemma FlushSettings(b: Buf)
    ensures Undisturbed(b, Flush(b).0)
  {
    hide NodelayStage, WriteStage, FlushStage, ShutdownStage;
    if Active(b) {
      var a := b.(hist := b.hist.(offered := b.hist.appended));
      StageSettings(a);
      var b1 := NodelayStage(a).0;
      StageSettings(b1);
      var b2 := WriteStage(b1).0;
      StageSettings(b2);
      StageSettings(FlushStage(b2).0);
    }
  }

  lemma ReadSettings(b: Buf, max: nat)
    ensures Undisturbed(b, Read(b, max).0)
  {
    hide ReadLoop;
  }

  lemma StepSettings(b: Buf, op: Op)
    ensures SettingsOf(Step(b, op).0) == Set(SettingsOf(b), op)
  {
    hide Flush, Read;
    FlushSettings(b);
    if op.OpRead? {
      ReadSettings(b, op.max);
    }
  }

  lemma AppendEffect(b: Buf, data: seq<byte>)
    ensures Append(b, data).hist == b.hist.(appended := b.hist.appended + data)
  {
  }

  lemma ReadBytesEffect(b: Buf, room: nat)
    ensures var (c, data) := ReadBytes(b, room);
            c.hist == b.hist.(consumed := b.hist.consumed + (if data.Some? then data.value else []))
  {
    assert b.hist.consumed + [] == b.hist.consumed;
  }

  lemma StepHistory(b: Buf, op: Op)
    ensures var (c, out) := Step(b, op);
            && c.hist.appended == b.hist.appended + AppendedBy([op])
            && c.hist.consumed == b.hist.consumed + GivenTo([op], [out])
  {
    hide Flush, Read, SettingsOf, Init, Retire, SetNodelay, Append, ReadBytes;
    assert [op][1..] == [];
    assert b.hist.appended + [] == b.hist.appended && b.hist.consumed + [] == b.hist.consumed;
    match op
    case OpFlush => FlushSettings(b);
    case OpRead(max) => ReadSettings(b, max);
    case OpInit(script) => InitHistory(b, script);
    case OpDeinit => InitHistory(b, []);
    case OpSetNodelay(flag) => SetNodelayHistory(b, flag);
    case OpAppend(data) => AppendEffect(b, data);
    case OpReadBytes(room) => ReadBytesEffect(b, room);
    case _ =>
  }

  lemma InitHistory(b: Buf, script: seq<Reply>)
    ensures Init(b, script).hist.appended == Retire(b).hist.appended == b.hist.appended
    ensures Init(b, script).hist.consumed == Retire(b).hist.consumed == b.hist.consumed
  {
  }

  lemma SetNodelayHistory(b: Buf, flag: bool)
    ensures SetNodelay(b, flag).hist == b.hist
  {
  }

  lemma {:induction false} RunComesTo(b: Buf, ops: seq<Op>)
    ensures var c := Run(b, ops);
            && SettingsOf(c) == SettingsAfter(SettingsOf(b), ops)
            && c.hist.appended == b.hist.appended + AppendedBy(ops)
            && c.hist.consumed == b.hist.consumed + GivenTo(ops, Outcomes(b, ops))
    decreases ops
  {
    hide Step, SettingsOf;
    if ops == [] {
      assert b.hist.appended + [] == b.hist.appended && b.hist.consumed + [] == b.hist.consumed;
    } else {
      StepSettings(b, ops[0]);
      StepHistory(b, ops[0]);
      var (c, out) := Step(b, ops[0]);
      RunComesTo(c, ops[1..]);
      assert AppendedBy(ops) == AppendedBy([ops[0]]) + AppendedBy(ops[1..]);
      assert Outcomes(b, ops)[1..] == Outcomes(c, ops[1..]);
      assert GivenTo(ops, Outcomes(b, ops)) == GivenTo([ops[0]], [out]) + GivenTo(ops[1..], Outcomes(c, ops[1..]));
    }
  }

  /** On every run: what the operations appended is what the streams have accepted, then what waits; what the
      streams delivered is what the operations were given, then what waits; and the settings are those last
      made. */
  lemma EndToEnd(ops: seq<Op>)
    ensures var b := Run(Empty, ops);
            && AppendedBy(ops) == Sent(b) + b.out
            && Received(b) == GivenTo(ops, Outcomes(Empty, ops)) + b.unread
            && Settings(b.nodelay, b.pause, b.outEof, b.stream.Some?)
               == SettingsAfter(Settings(false, false, false, false), ops)
  {
    EmptyInv();
    RunKeeps(Empty, ops);
    RunComesTo(Empty, ops);
    hide Run, Outcomes;
    assert Empty.hist.appended + AppendedBy(ops) == AppendedBy(ops);
    assert Empty.hist.consumed + GivenTo(ops, Outcomes(Empty, ops)) == GivenTo(ops, Outcomes(Empty, ops));
  }
}
