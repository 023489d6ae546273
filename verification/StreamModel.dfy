/**
 The TCP stream buffer as two byte queues and a few flags, without offsets or capacity, and
 what each of its operations does to them.
 */
module StreamModel {

  import opened Common
  import opened Socket

  /** What has happened so far. */
  datatype History = History(
    appended: seq<byte>,          // everything ever added to `out`
    passedOn: seq<byte>,          // what left `out` for earlier streams or for another buffer
    consumed: seq<byte>,          // everything ever taken from the input side
    takenIn: seq<byte>,           // what came in from earlier streams or from another buffer
    endedBefore: bool,            // the end of an earlier stream was seen, or handed on
    misread: bool,                // a read without room was taken for the end
    nodelayFailed: bool,          // the last attempt to apply TCP_NODELAY failed
    inits: nat,                   // streams attached
    offered: seq<byte>,           // what had been appended when a flush was last called
    closes: seq<Close>)

  /** A write shutdown that was carried out: during which attachment, and the bytes that the
      streams had accepted and the application had appended by then. */
  datatype Close = Close(init: nat, sent: seq<byte>, appended: seq<byte>)

  datatype Buf = Buf(
    out: seq<byte>,
    outEof: bool,
    unread: seq<byte>,
    inpEof: bool,
    nodelay: bool,
    pendingNodelay: bool,
    sentOutEof: bool,
    pause: bool,
    stream: Option<Sock>,
    hist: History)

  const Empty: Buf :=
    Buf([], false, [], false, false, false, false, false, None,
        History([], [], [], [], false, false, false, 0, [], []))

  /** The bytes that have left the output side. */
  function Sent(b: Buf): seq<byte> {
    b.hist.passedOn + if b.stream.Some? then b.stream.value.accepted else []
  }

  /** The bytes that have arrived on the input side. */
  function Received(b: Buf): seq<byte> {
    b.hist.takenIn + if b.stream.Some? then b.stream.value.delivered else []
  }

  /** A stream, now or earlier, has reported its end. */
  predicate EndSeen(b: Buf) {
    b.hist.endedBefore || (b.stream.Some? && b.stream.value.ended)
  }

  // ---------------------------------------------------------------- attaching streams

  /** Lets go of the stream but remembers what it did. */
  function Retire(b: Buf): Buf {
    b.(stream := None,
       hist := b.hist.(passedOn := Sent(b), takenIn := Received(b), endedBefore := EndSeen(b)))
  }

  function Init(b: Buf, script: seq<Reply>): Buf {
    var r := Retire(b);
    r.(stream := Some(Attach(script)), sentOutEof := false, pendingNodelay := true,
       hist := r.hist.(nodelayFailed := false, inits := r.hist.inits + 1))
  }

  function SetNodelay(b: Buf, flag: bool): Buf {
    if b.nodelay != flag then b.(nodelay := flag, pendingNodelay := true) else b
  }

  // ---------------------------------------------------------------- flushing

  /** How one stage of a flush ends: go on to the next stage, or return from the flush. */
  datatype Exit = Proceed | Return(error: Option<IoError>)

  function NodelayLoop(s: Sock, flag: bool): (r: (Sock, Exit))
    decreases |s.script|
  {
    var (t, io) := s.SetNodelay(flag);
    match io
    case Again => NodelayLoop(t, flag)
    case Blocked => (t, Return(Some(WouldBlockError)))
    case Failed(code) => (t, Return(Some(Other(code))))
    case Ok(_) => (t, Proceed)
  }

  function WriteLoop(s: Sock, out: seq<byte>): (r: (Sock, seq<byte>, Exit))
    decreases |out|, |s.script|
  {
    if out == [] then (s, out, Proceed) else
      var (t, io) := s.Write(out);
      match io
      case Again => WriteLoop(t, out)
      case Blocked => (t, out, Return(None))
      case Failed(code) => (t, out, Return(Some(Other(code))))
      case Ok(n) => if n == 0 then (t, out, Proceed) else WriteLoop(t, out[n..])
  }

  function FlushLoop(s: Sock): (r: (Sock, Exit))
    decreases |s.script|
  {
    var (t, io) := s.Flush();
    match io
    case Again => FlushLoop(t)
    case Blocked => (t, Return(None))
    case Failed(code) => (t, Return(Some(Other(code))))
    case Ok(_) => (t, Proceed)
  }

  function ShutdownLoop(s: Sock): (r: (Sock, Exit))
    decreases |s.script|
  {
    var (t, io) := s.ShutdownWrite();
    match io
    case Again => ShutdownLoop(t)
    case Blocked => (t, Return(None))
    case Failed(code) => (t, Return(Some(Other(code))))
    case Ok(_) => (t, Proceed)
  }

  /** The stages of a flush, each from the state the one before left. */
  function NodelayStage(b: Buf): (Buf, Exit)
    requires b.stream.Some?
  {
    if !b.pendingNodelay then (b, Proceed) else
      var (s, exit) := NodelayLoop(b.stream.value, b.nodelay);
      (b.(stream := Some(s), pendingNodelay := false,
          hist := b.hist.(nodelayFailed := exit.Return?)), exit)
  }

  function WriteStage(b: Buf): (Buf, Exit)
    requires b.stream.Some?
  {
    var (s, out, exit) := WriteLoop(b.stream.value, b.out);
    (b.(stream := Some(s), out := out), exit)
  }

  function FlushStage(b: Buf): (Buf, Exit)
    requires b.stream.Some?
  {
    var (s, exit) := FlushLoop(b.stream.value);
    (b.(stream := Some(s)), exit)
  }

  function ShutdownStage(b: Buf): (Buf, Exit)
    requires b.stream.Some?
  {
    if !(b.outEof && !b.sentOutEof && b.out == []) then (b, Proceed) else
      var (s, exit) := ShutdownLoop(b.stream.value);
      var c := b.(stream := Some(s));
      (if exit.Return? then c
       else c.(sentOutEof := true,
               hist := c.hist.(closes := c.hist.closes + [Close(c.hist.inits, Sent(c), c.hist.appended)])), exit)
  }

  function Stages(b: Buf): (Buf, Exit)
    requires b.stream.Some?
  {
    var (b1, e1) := NodelayStage(b);
    if e1.Return? then (b1, e1) else
    var (b2, e2) := WriteStage(b1);
    if e2.Return? then (b2, e2) else
    var (b3, e3) := FlushStage(b2);
    if e3.Return? then (b3, e3) else
    ShutdownStage(b3)
  }

  /** A flush and the error it returns, if any. */
  function Flush(b: Buf): (Buf, Option<IoError>) {
    var a := b.(hist := b.hist.(offered := b.hist.appended));
    if a.pause || a.stream.None? then (a, None) else
      var (c, exit) := Stages(a);
      (c, if exit.Return? then exit.error else None)
  }

  // ---------------------------------------------------------------- reading

  datatype ReadStatus = NewData | NoData | EndOfStream | ReadError(code: nat)

  function ReadLoop(s: Sock, max: nat): (r: (Sock, Io<seq<byte>>))
    ensures !r.1.Again?
    ensures r.1.Ok? ==> |r.1.value| <= max
    decreases |s.script|
  {
    var (t, io) := s.Read(max);
    if io.Again? then ReadLoop(t, max) else (t, io)
  }

  /** The status a read reports for the answer it got in the end. */
  function StatusOf(io: Io<seq<byte>>): ReadStatus {
    match io
    case Ok(got) => if got == [] then EndOfStream else NewData
    case Failed(code) => ReadError(code)
    case _ => NoData
  }

  /** Appends what the stream delivers.  Nothing delivered counts as the end of the stream, even
      when there was no room. */
  function Read(b: Buf, max: nat): (Buf, ReadStatus) {
    if b.stream.None? then (b, NoData) else
      var (s, io) := ReadLoop(b.stream.value, max);
      var status := StatusOf(io);
      (b.(stream := Some(s),
          unread := b.unread + (if io.Ok? then io.value else []),
          inpEof := b.inpEof || status.EndOfStream?,
          hist := b.hist.(misread := b.hist.misread || (status.EndOfStream? && !b.hist.endedBefore && !s.ended))),
       status)
  }

  /** The `Read` trait with a destination of `room` bytes: the bytes copied, or None for the
      error that there is nothing to read yet. */
  function ReadBytes(b: Buf, room: nat): (Buf, Option<seq<byte>>) {
    if b.unread == [] then (b, if b.inpEof then Some([]) else None) else
      var n := if room < |b.unread| then room else |b.unread|;
      (b.(unread := b.unread[n..], hist := b.hist.(consumed := b.hist.consumed + b.unread[..n])), Some(b.unread[..n]))
  }

  /** Hands `n` bytes of output to someone other than the stream. */
  function PassOn(b: Buf, n: nat): Buf
    requires n <= |b.out|
  {
    b.(out := b.out[n..], hist := b.hist.(passedOn := b.hist.passedOn + b.out[..n]))
  }

  /** Takes in data from someone other than the stream. */
  function TakeIn(b: Buf, data: seq<byte>): Buf {
    b.(unread := b.unread + data, hist := b.hist.(takenIn := b.hist.takenIn + data))
  }

  function Append(b: Buf, data: seq<byte>): Buf {
    b.(out := b.out + data, hist := b.hist.(appended := b.hist.appended + data))
  }

  /** `inside` hands its output up to `ext`, with the flag that it has ended. */
  function HandUp(inside: Buf, ext: Buf): (Buf, Buf) {
    (inside.(out := [], hist := inside.hist.(passedOn := inside.hist.passedOn + inside.out)),
     ext.(out := ext.out + inside.out, outEof := ext.outEof || inside.outEof,
          hist := ext.hist.(appended := ext.hist.appended + inside.out)))
  }

  /** `inside` takes over what `ext` has received, with the flag that it has ended. */
  function TakeDown(inside: Buf, ext: Buf): (Buf, Buf) {
    (inside.(unread := inside.unread + ext.unread, inpEof := inside.inpEof || ext.inpEof,
             hist := inside.hist.(takenIn := inside.hist.takenIn + ext.unread,
                                  endedBefore := inside.hist.endedBefore || EndSeen(ext),
                                  misread := inside.hist.misread || ext.hist.misread)),
     ext.(unread := [], hist := ext.hist.(consumed := ext.hist.consumed + ext.unread)))
  }

  function Exchange(inside: Buf, ext: Buf): (Buf, Buf) {
    var (i, e) := HandUp(inside, ext);
    TakeDown(i, e)
  }

  // ---------------------------------------------------------------- whole runs

  datatype Op =
    | OpInit(script: seq<Reply>)
    | OpDeinit
    | OpSetNodelay(flag: bool)
    | OpPauseWrites(flag: bool)
    | OpFlush
    | OpMakeSpace(max: nat)
    | OpRead(max: nat)
    | OpReadBytes(room: nat)
    | OpAppend(data: seq<byte>)
    | OpSetOutEof(flag: bool)

  datatype Outcome =
    | Unit
    | Flushed(error: Option<IoError>)
    | Status(status: ReadStatus)
    | Bytes(data: Option<seq<byte>>)

  function Step(b: Buf, op: Op): (Buf, Outcome) {
    match op
    case OpInit(script) => (Init(b, script), Unit)
    case OpDeinit => (Retire(b), Unit)
    case OpSetNodelay(flag) => (SetNodelay(b, flag), Unit)
    case OpPauseWrites(flag) => (b.(pause := flag), Unit)
    case OpFlush => var (c, error) := Flush(b); (c, Flushed(error))
    case OpMakeSpace(_) => (b, Unit)
    case OpRead(max) => var (c, status) := Read(b, max); (c, Status(status))
    case OpReadBytes(room) => var (c, data) := ReadBytes(b, room); (c, Bytes(data))
    case OpAppend(data) => (Append(b, data), Unit)
    case OpSetOutEof(flag) => (b.(outEof := flag), Unit)
  }

  function Run(b: Buf, ops: seq<Op>): Buf
    decreases ops
  {
    if ops == [] then b else Run(Step(b, ops[0]).0, ops[1..])
  }

  function Outcomes(b: Buf, ops: seq<Op>): (r: seq<Outcome>)
    ensures |r| == |ops|
    decreases ops
  {
    if ops == [] then [] else [Step(b, ops[0]).1] + Outcomes(Step(b, ops[0]).0, ops[1..])
  }
}
