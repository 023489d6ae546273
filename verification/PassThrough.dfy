/**
 The engine with TLS disabled, as a pair of stream buffers: `inside` is the application's side,
 `ext` the connection's.  Data and end-of-stream flags pass through unchanged.
 */
module PassThrough {

  import opened Common
  import M = StreamModel
  import R = StreamRuns
  import O = StreamOutcomes
  import opened Engine

  datatype Pass = Pass(inside: M.Buf, ext: M.Buf, inpEof: Option<TlsEof>)

  /** What a call of `process` returns: the state of the input, or an error. */
  datatype Processed = Eof(state: Option<TlsEof>) | TlsError

  function Process(p: Pass): (Pass, Processed) {
    var (inside, ext) := M.Exchange(p.inside, p.ext);
    var inpEof := if inside.inpEof then Some(Close) else p.inpEof;
    var (flushed, error) := M.Flush(ext);
    (Pass(inside, flushed, inpEof), if error.Some? then TlsError else Eof(inpEof))
  }

  // ---------------------------------------------------------------- whole runs

  datatype Op = CallProcess | OnExt(op: M.Op) | OnInside(op: M.Op)

  /** Data enters and leaves the connection's side by its stream and by `process` only, and the
      application's side has no stream of its own. */
  predicate Proper(op: Op) {
    match op
    case CallProcess => true
    case OnExt(o) => !o.OpAppend? && !o.OpReadBytes?
    case OnInside(o) => o.OpAppend? || o.OpReadBytes? || o.OpSetOutEof? || o.OpMakeSpace?
  }

  ghost predicate AllProper(ops: seq<Op>) {
    forall i :: 0 <= i < |ops| ==> Proper(ops[i])
  }

  datatype Outcome<R> = Called(result: R) | Did(out: M.Outcome)

  function Step(p: Pass, op: Op): (Pass, Outcome<Processed>) {
    match op
    case CallProcess => var (q, r) := Process(p); (q, Called(r))
    case OnExt(o) => var (b, out) := M.Step(p.ext, o); (p.(ext := b), Did(out))
    case OnInside(o) => var (b, out) := M.Step(p.inside, o); (p.(inside := b), Did(out))
  }

  function Run(p: Pass, ops: seq<Op>): Pass {
    if ops == [] then p else Step(Run(p, ops[..|ops| - 1]), ops[|ops| - 1]).0
  }

  function Outcomes(p: Pass, ops: seq<Op>): (r: seq<Outcome<Processed>>)
    ensures |r| == |ops|
  {
    if ops == [] then [] else
      var n := |ops| - 1;
      Outcomes(p, ops[..n]) + [Step(Run(p, ops[..n]), ops[n]).1]
  }

  /** A run and one more operation. */
  lemma RunMore(p: Pass, ops: seq<Op>, op: Op)
    ensures Run(p, ops + [op]) == Step(Run(p, ops), op).0
    ensures Outcomes(p, ops + [op]) == Outcomes(p, ops) + [Step(Run(p, ops), op).1]
  {
    hide Step;
    assert (ops + [op])[..|ops|] == ops;
  }

  /** What the application writes in the course of the operations. */
  function WrittenBy(ops: seq<Op>): seq<byte> {
    if ops == [] then [] else WrittenBy(ops[..|ops| - 1]) + Written(ops[|ops| - 1])
  }

  function Written(op: Op): seq<byte> {
    if op.OnInside? && op.op.OpAppend? then op.op.data else []
  }

  /** What the application is given, going by the outcomes of its operations. */
  function TakenFrom<R>(ops: seq<Op>, outs: seq<Outcome<R>>): seq<byte>
    requires |ops| == |outs|
  {
    if ops == [] then [] else
      TakenFrom(ops[..|ops| - 1], outs[..|ops| - 1]) + Taken(ops[|ops| - 1], outs[|ops| - 1])
  }

  function Taken<R>(op: Op, out: Outcome<R>): seq<byte> {
    if op.OnInside? && out.Did? && out.out.Bytes? && out.out.data.Some? then out.out.data.value else []
  }

  const Start: Pass := Pass(M.Empty, M.Empty, None)

  /** What one side gave up is what the other took. */
  ghost predicate Joined(p: Pass) {
    && p.inside.stream.None?
    && p.ext.hist.appended == p.inside.hist.passedOn
    && p.inside.hist.takenIn == p.ext.hist.consumed
    && (p.inside.inpEof ==> p.ext.inpEof)
    && (p.inpEof != None ==> p.inpEof == Some(Close) && p.inside.inpEof)
  }

  ghost predicate Inv(p: Pass) {
    R.Inv(p.inside) && R.Inv(p.ext) && Joined(p)
  }

  lemma HandUpKeeps(inside: M.Buf, ext: M.Buf)
    requires R.Inv(inside) && R.Inv(ext) && inside.stream.None?
    ensures R.Inv(M.HandUp(inside, ext).0) && R.Inv(M.HandUp(inside, ext).1)
  {
    hide R.ClosesInv;
    var (i, e) := M.HandUp(inside, ext);
    R.SameCloses(inside, i);
    R.SameCloses(ext, e);
    assert inside.hist.passedOn + inside.out + [] == inside.hist.passedOn + inside.out;
    assert M.Sent(ext) + (ext.out + inside.out) == M.Sent(ext) + ext.out + inside.out;
    assert inside.hist.passedOn + [] == inside.hist.passedOn && i.hist.passedOn + [] == i.hist.passedOn;
  }

  lemma TakeDownKeeps(inside: M.Buf, ext: M.Buf)
    requires R.Inv(inside) && R.Inv(ext) && inside.stream.None?
    ensures R.Inv(M.TakeDown(inside, ext).0) && R.Inv(M.TakeDown(inside, ext).1)
  {
    hide R.ClosesInv;
    var (i, e) := M.TakeDown(inside, ext);
    R.SameCloses(inside, i);
    R.SameCloses(ext, e);
    assert inside.hist.takenIn + [] == inside.hist.takenIn && i.hist.takenIn + [] == i.hist.takenIn;
    assert inside.hist.consumed + inside.unread + ext.unread == inside.hist.consumed + (inside.unread + ext.unread);
    assert ext.hist.consumed + ext.unread + [] == ext.hist.consumed + ext.unread;
  }

  /** A flush changes neither what has been appended nor anything on the input side. */
  lemma FlushFrame(b: M.Buf)
    requires R.Inv(b)
    ensures var c := M.Flush(b).0;
            && R.Inv(c)
            && c.hist.appended == b.hist.appended && c.hist.consumed == b.hist.consumed
            && c.inpEof == b.inpEof && c.unread == b.unread && M.Received(c) == M.Received(b)
            && c.outEof == b.outEof
            && c.hist.offered == c.hist.appended
  {
    hide M.Flush, R.Inv;
    R.FlushKeeps(b);
  }

  lemma ProcessKeeps(p: Pass)
    requires Inv(p)
    ensures Inv(Process(p).0)
  {
    hide R.Inv, M.Flush;
    HandUpKeeps(p.inside, p.ext);
    var (i, e) := M.HandUp(p.inside, p.ext);
    TakeDownKeeps(i, e);
    FlushFrame(M.Exchange(p.inside, p.ext).1);
  }

  /** Operations on the connection's side other than appending and taking data. */
  lemma ExtFrame(b: M.Buf, op: M.Op)
    requires R.Inv(b) && !op.OpAppend? && !op.OpReadBytes?
    ensures var c := M.Step(b, op).0;
            && R.Inv(c)
            && c.hist.appended == b.hist.appended && c.hist.consumed == b.hist.consumed
            && (b.inpEof ==> c.inpEof)
  {
    hide M.Flush, R.Inv, M.ReadLoop;
    R.StepKeeps(b, op);
    if op.OpFlush? {
      FlushFrame(b);
    }
  }

  /** Operations of the application on its side. */
  lemma InsideFrame(b: M.Buf, op: M.Op)
    requires R.Inv(b) && (op.OpAppend? || op.OpReadBytes? || op.OpSetOutEof? || op.OpMakeSpace?)
    ensures var c := M.Step(b, op).0;
            && R.Inv(c)
            && c.hist.passedOn == b.hist.passedOn && c.hist.takenIn == b.hist.takenIn
            && c.inpEof == b.inpEof && c.stream == b.stream
  {
    hide M.Flush, R.Inv;
    R.StepKeeps(b, op);
  }

  lemma StepKeeps(p: Pass, op: Op)
    requires Inv(p) && Proper(op)
    ensures Inv(Step(p, op).0)
  {
    hide R.Inv, Process, M.Step;
    match op
    case CallProcess => ProcessKeeps(p);
    case OnExt(o) => ExtFrame(p.ext, o);
    case OnInside(o) => InsideFrame(p.inside, o);
  }

  lemma {:induction false} RunKeeps(p: Pass, ops: seq<Op>)
    requires Inv(p) && AllProper(ops)
    ensures Inv(Run(p, ops))
  {
    hide Inv, Step;
    if ops != [] {
      var n := |ops| - 1;
      assert forall i :: 0 <= i < n ==> ops[..n][i] == ops[i];
      RunKeeps(p, ops[..n]);
      StepKeeps(Run(p, ops[..n]), ops[n]);
    }
  }

  lemma StartInv()
    ensures Inv(Start)
  {
    R.EmptyInv();
  }

  // ---------------------------------------------------------------- end to end

  /** What an operation of the application adds to what it has written and to what it was given. */
  lemma InsideEffect<R>(b: M.Buf, o: M.Op)
    requires Proper(OnInside(o))
    ensures var (c, out) := M.Step(b, o);
            && c.hist.appended == b.hist.appended + Written(OnInside(o))
            && c.hist.consumed == b.hist.consumed + Taken<R>(OnInside(o), Did(out))
  {
    hide M.Flush, M.Read, M.Init, M.Retire, M.SetNodelay, M.Append, M.ReadBytes;
    assert b.hist.appended + [] == b.hist.appended;
    assert b.hist.consumed + [] == b.hist.consumed;
    if o.OpAppend? {
      O.AppendEffect(b, o.data);
    } else if o.OpReadBytes? {
      O.ReadBytesEffect(b, o.room);
    }
  }

  lemma ProcessEffect(p: Pass)
    ensures var q := Process(p).0;
            q.inside.hist.appended == p.inside.hist.appended && q.inside.hist.consumed == p.inside.hist.consumed
  {
    hide M.Flush;
  }

  lemma StepEffect(p: Pass, op: Op)
    requires Proper(op)
    ensures var (q, out) := Step(p, op);
            && q.inside.hist.appended == p.inside.hist.appended + Written(op)
            && q.inside.hist.consumed == p.inside.hist.consumed + Taken(op, out)
  {
    hide Process, M.Step;
    assert p.inside.hist.appended + [] == p.inside.hist.appended;
    assert p.inside.hist.consumed + [] == p.inside.hist.consumed;
    match op
    case CallProcess => ProcessEffect(p);
    case OnExt(_) =>
    case OnInside(o) => InsideEffect<Processed>(p.inside, o);
  }

  lemma {:induction false} RunEffect(ops: seq<Op>)
    requires AllProper(ops)
    ensures var p := Run(Start, ops);
            p.inside.hist.appended == WrittenBy(ops) && p.inside.hist.consumed == TakenFrom(ops, Outcomes(Start, ops))
  {
    hide Step;
    if ops != [] {
      var n := |ops| - 1;
      assert forall i :: 0 <= i < n ==> ops[..n][i] == ops[i];
      RunEffect(ops[..n]);
      StepEffect(Run(Start, ops[..n]), ops[n]);
      assert Outcomes(Start, ops)[..n] == Outcomes(Start, ops[..n]);
    }
  }

  /** End to end: what the application wrote is what the streams have accepted, then what waits in
      the two output buffers; what the streams delivered is what the application was given, then
      what waits in the two input buffers. */
  lemma EndToEnd(ops: seq<Op>)
    requires AllProper(ops)
    ensures var p := Run(Start, ops);
            && WrittenBy(ops) == M.Sent(p.ext) + p.ext.out + p.inside.out
            && M.Received(p.ext) == TakenFrom(ops, Outcomes(Start, ops)) + p.inside.unread + p.ext.unread
  {
    StartInv();
    RunKeeps(Start, ops);
    RunEffect(ops);
    hide Run, Outcomes;
    var p := Run(Start, ops);
    assert p.inside.hist.passedOn + [] == p.inside.hist.passedOn;
    assert p.inside.hist.takenIn + [] == p.inside.hist.takenIn;
  }

  /** The end is reported when, and only when, it has been seen on the connection (or a read
      without room was taken for it), and then every byte received is with the application. */
  lemma CloseIsExact(p: Pass)
    requires Inv(p) && Process(p).1.Eof?
    ensures var (q, r) := Process(p);
            && q.ext.unread == []
            && M.Received(q.ext) == q.inside.hist.consumed + q.inside.unread
            && (r == Eof(Some(Close)) <==> M.EndSeen(p.ext) || p.ext.hist.misread)
            && (r != Eof(Some(Close)) ==> r == Eof(None))
  {
    ProcessKeeps(p);
    var q := Process(p).0;
    hide M.Flush;
    var (i, e) := M.HandUp(p.inside, p.ext);
    HandUpKeeps(p.inside, p.ext);
    TakeDownKeeps(i, e);
    FlushFrame(M.Exchange(p.inside, p.ext).1);
    assert q.inside.hist.takenIn + [] == q.inside.hist.takenIn;
    assert q.ext.hist.consumed + [] == q.ext.hist.consumed;
  }

  /** A call fails if and only if the flush of the connection does, with all output handed over. */
  lemma FailsIff(p: Pass)
    ensures var handed := p.ext.(out := p.ext.out + p.inside.out, outEof := p.ext.outEof || p.inside.outEof);
            && (Process(p).1 == TlsError <==> O.FlushFails(handed))
            && Step(p, CallProcess) == (Process(p).0, Called(Process(p).1))
  {
    hide M.Flush, O.FlushFails;
    O.FlushFailsIff(M.Exchange(p.inside, p.ext).1);
    SameFlush(M.Exchange(p.inside, p.ext).1,
              p.ext.(out := p.ext.out + p.inside.out, outEof := p.ext.outEof || p.inside.outEof));
  }

  /** Neither the input side nor the history has a say in whether a flush fails. */
  lemma SameFlush(b: M.Buf, c: M.Buf)
    requires b == c.(unread := b.unread, inpEof := b.inpEof, hist := b.hist)
    ensures O.FlushFails(b) <==> O.FlushFails(c)
  {
    hide O.Accepts, O.AfterAccepts, O.Beyond, R.Answer;
  }

  /** When `process` shuts the connection's output down, the stream has accepted everything that
      the application has written. */
  lemma ShutdownAfterAll(p: Pass)
    requires Inv(p)
    requires |Process(p).0.ext.hist.closes| > |p.ext.hist.closes|
    ensures var q := Process(p).0;
            q.ext.out == [] && M.Sent(q.ext) == q.inside.hist.appended
  {
    ProcessKeeps(p);
    var q := Process(p).0;
    var e := M.Exchange(p.inside, p.ext).1;
    ClosingFlush(e);
    assert q.inside.hist.passedOn + [] == q.inside.hist.passedOn;
    assert M.Sent(q.ext) + [] == M.Sent(q.ext);
  }

  /** A call hands over all the application's output, and its end along with it. */
  lemma OutputPassedOn(p: Pass)
    requires Inv(p)
    ensures var q := Process(p).0;
            && q.inside.out == []
            && (q.ext.outEof <==> p.ext.outEof || p.inside.outEof)
            && q.ext.hist.offered == p.inside.hist.appended
  {
    hide M.Flush, R.Inv;
    var (i, e) := M.HandUp(p.inside, p.ext);
    HandUpKeeps(p.inside, p.ext);
    TakeDownKeeps(i, e);
    FlushFrame(M.Exchange(p.inside, p.ext).1);
    AllAppended(p.inside);
  }

  lemma AllAppended(b: M.Buf)
    requires R.Inv(b) && b.stream.None?
    ensures b.hist.appended == b.hist.passedOn + b.out
  {
    assert b.hist.passedOn + [] == b.hist.passedOn;
  }

  lemma ClosingFlush(b: M.Buf)
    ensures |M.Flush(b).0.hist.closes| > |b.hist.closes| ==> M.Flush(b).0.out == []
  {
    hide M.NodelayLoop, M.WriteLoop, M.FlushLoop, M.ShutdownLoop;
  }
}
