/**
 The TCP stream buffer as implemented: an output buffer drained by partial writes, and an input
 buffer in one growing array with a read and a write offset.
 */
module TcpStreamBuf {

  import opened Common
  import opened Socket
  import M = StreamModel

  function Max(a: nat, b: nat): nat {
    if a < b then b else a
  }

  /** Every read or request for room in the run is for at most `max` bytes and comes when at most
      `unread` bytes are waiting. */
  ghost predicate Moderate(b: M.Buf, ops: seq<M.Op>, unread: nat, max: nat)
    decreases ops
  {
    ops == [] || (
      && (ops[0].OpRead? || ops[0].OpMakeSpace? ==> |b.unread| <= unread && ops[0].max <= max)
      && Moderate(M.Step(b, ops[0]).0, ops[1..], unread, max))
  }

  /** How far `Vec::reserve` may grow a full vector of length `len` that must reach `end`. */
  function GrowthLimit(len: nat, end: nat): nat {
    Max(Max(2 * len, end), 8)
  }

  /** The length that a buffer never exceeds while at most `unread` bytes are waiting and at most
      `max` are asked for at a time. */
  function LengthBound(unread: nat, max: nat): nat {
    Max(8, 2 * (unread + max))
  }

  /** Growing a buffer that is too short for `unread + max` stays within the bound. */
  lemma GrowthWithinBound(len: nat, unread: nat, max: nat)
    requires len < unread + max
    ensures GrowthLimit(len, Max(unread + max, max * 2)) <= LengthBound(unread, max)
  {
  }

  lemma BoundGrows(a: nat, b: nat, unread: nat, max: nat)
    requires a <= unread && b <= max
    ensures LengthBound(a, b) <= LengthBound(unread, max)
  {
  }

  /** How much more than the `max` bytes asked for making room leaves free.  The offsets and the length
      decide, unless the buffer has to grow. */
  predicate Spare(rd: nat, wr: nat, length: nat, max: nat, spare: int) {
    var from := if rd == wr then 0 else wr;
    if from + max <= length then spare == length - from - max
    else if wr - rd + max <= length then spare == length - (wr - rd) - max
    else spare >= max - (wr - rd)
  }

  class TcpStreamBuf {
    var out: seq<byte>
    var outEof: bool
    var inp: array<byte>
    var inpEof: bool
    var rd: nat
    var wr: nat
    var nodelay: bool
    var pendingSetNodelay: bool
    var sentOutEof: bool
    var pause: bool
    var stream: Option<Sock>

    ghost var hist: M.History

    ghost predicate Valid()
      reads this, inp
    {
      rd <= wr <= inp.Length
    }

    /** The state as two byte queues, with its history. */
    ghost function Model(): M.Buf
      requires Valid()
      reads this, inp
    {
      M.Buf(out, outEof, inp[rd..wr], inpEof, nodelay, pendingSetNodelay, sentOutEof, pause, stream, hist)
    }

    constructor ()
      ensures Valid() && fresh(inp) && inp.Length == 0
      ensures Model() == M.Empty
    {
      out, outEof := [], false;
      inp, inpEof, rd, wr := new byte[0], false, 0, 0;
      nodelay, pendingSetNodelay, sentOutEof, pause := false, false, false, false;
      stream := None;
      hist := M.Empty.hist;
    }

    method Init(script: seq<Reply>)
      requires Valid()
      modifies this`stream, this`sentOutEof, this`pendingSetNodelay, this`hist
      ensures Valid() && Model() == M.Init(old(Model()), script)
    {
      ghost var m := Model();
      stream := Some(Attach(script));
      sentOutEof := false;
      pendingSetNodelay := true;
      hist := M.Init(m, script).hist;
    }

    method Deinit()
      requires Valid()
      modifies this`stream, this`hist
      ensures Valid() && Model() == M.Retire(old(Model()))
    {
      ghost var m := Model();
      stream := None;
      hist := M.Retire(m).hist;
    }

    method SetNodelay(flag: bool)
      requires Valid()
      modifies this`nodelay, this`pendingSetNodelay
      ensures Valid() && Model() == M.SetNodelay(old(Model()), flag)
    {
      if nodelay != flag {
        nodelay := flag;
        pendingSetNodelay := true;
      }
    }

    method PauseWrites(flag: bool)
      requires Valid()
      modifies this`pause
      ensures Valid() && Model() == old(Model()).(pause := flag)
    {
      pause := flag;
    }

    method SetOutEof(flag: bool)
      requires Valid()
      modifies this`outEof
      ensures Valid() && Model() == old(Model()).(outEof := flag)
    {
      outEof := flag;
    }

    /** The `Write` trait. */
    method Write(data: seq<byte>) returns (n: nat)
      requires Valid()
      modifies this`out, this`hist
      ensures Valid() && Model() == M.Append(old(Model()), data)
      ensures n == |data|
    {
      ghost var m := Model();
      out := out + data;
      hist := M.Append(m, data).hist;
      n := |data|;
    }

    /** Removes the first `n` bytes of output, which someone other than the stream has taken. */
    method DrainOut(n: nat)
      requires Valid() && n <= |out|
      modifies this`out, this`hist
      ensures Valid() && Model() == M.PassOn(old(Model()), n)
    {
      hist := M.PassOn(Model(), n).hist;
      out := out[n..];
    }

    // -------------------------------------------------------------- flushing

    method ApplyNodelay() returns (exit: M.Exit)
      requires Valid() && stream.Some?
      modifies this`stream, this`pendingSetNodelay, this`hist
      ensures Valid() && stream.Some?
      ensures (Model(), exit) == M.NodelayStage(old(Model()))
    {
      ghost var m := Model();
      exit := M.Proceed;
      if pendingSetNodelay {
        pendingSetNodelay := false;
        var s := stream.value;
        var busy := true;
        while busy
          invariant if busy then M.NodelayLoop(s, nodelay) == M.NodelayLoop(old(stream.value), nodelay)
                    else (s, exit) == M.NodelayLoop(old(stream.value), nodelay)
          decreases busy, |s.script|
        {
          var (t, io) := s.SetNodelay(nodelay);
          s := t;
          match io {
            case Again =>
            case Blocked => exit, busy := M.Return(Some(WouldBlockError)), false;
            case Failed(code) => exit, busy := M.Return(Some(Other(code))), false;
            case Ok(_) => exit, busy := M.Proceed, false;
          }
        }
        stream := Some(s);
        hist := M.NodelayStage(m).0.hist;
      }
    }

    method WriteOut() returns (exit: M.Exit)
      requires Valid() && stream.Some?
      modifies this`stream, this`out, this`hist
      ensures Valid() && stream.Some?
      ensures (Model(), exit) == M.WriteStage(old(Model()))
    {
      ghost var m := Model();
      exit := M.Proceed;
      var s := stream.value;
      var busy := out != [];
      while busy
        invariant hist == m.hist && (busy ==> out != [])
        invariant if busy then M.WriteLoop(s, out) == M.WriteLoop(old(stream.value), old(out))
                  else (s, out, exit) == M.WriteLoop(old(stream.value), old(out))
        decreases busy, |out|, |s.script|
      {
        var (t, io) := s.Write(out);
        s := t;
        match io {
          case Again =>
          case Blocked => exit, busy := M.Return(None), false;
          case Failed(code) => exit, busy := M.Return(Some(Other(code))), false;
          case Ok(len) =>
            if len == 0 {
              exit, busy := M.Proceed, false;
            } else {
              out := out[len..];
              exit, busy := M.Proceed, out != [];
            }
        }
      }
      stream := Some(s);
      hist := M.WriteStage(m).0.hist;
    }

    method FlushStream() returns (exit: M.Exit)
      requires Valid() && stream.Some?
      modifies this`stream, this`hist
      ensures Valid() && stream.Some?
      ensures (Model(), exit) == M.FlushStage(old(Model()))
    {
      ghost var m := Model();
      exit := M.Proceed;
      var s := stream.value;
      var busy := true;
      while busy
        invariant if busy then M.FlushLoop(s) == M.FlushLoop(old(stream.value))
                  else (s, exit) == M.FlushLoop(old(stream.value))
        decreases busy, |s.script|
      {
        var (t, io) := s.Flush();
        s := t;
        match io {
          case Again =>
          case Blocked => exit, busy := M.Return(None), false;
          case Failed(code) => exit, busy := M.Return(Some(Other(code))), false;
          case Ok(_) => exit, busy := M.Proceed, false;
        }
      }
      stream := Some(s);
      hist := M.FlushStage(m).0.hist;
    }

    method CloseOutput() returns (exit: M.Exit)
      requires Valid() && stream.Some?
      modifies this`stream, this`sentOutEof, this`hist
      ensures Valid() && stream.Some?
      ensures (Model(), exit) == M.ShutdownStage(old(Model()))
    {
      ghost var m := Model();
      exit := M.Proceed;
      if outEof && !sentOutEof && out == [] {
        var s := stream.value;
        var busy := true;
        while busy
          invariant if busy then M.ShutdownLoop(s) == M.ShutdownLoop(old(stream.value))
                    else (s, exit) == M.ShutdownLoop(old(stream.value))
          decreases busy, |s.script|
        {
          var (t, io) := s.ShutdownWrite();
          s := t;
          match io {
            case Again =>
            case Blocked => exit, busy := M.Return(None), false;
            case Failed(code) => exit, busy := M.Return(Some(Other(code))), false;
            case Ok(_) => exit, busy := M.Proceed, false;
          }
        }
        stream := Some(s);
        if exit.Proceed? {
          sentOutEof := true;
        }
        hist := M.ShutdownStage(m).0.hist;
      }
    }

    /** Sends as much as the stream takes, then closes the output side if that is asked for. */
    method Flush() returns (error: Option<IoError>)
      requires Valid()
      modifies this`stream, this`out, this`pendingSetNodelay, this`sentOutEof, this`hist
      ensures Valid()
      ensures (Model(), error) == M.Flush(old(Model()))
    {
      hide M.NodelayStage, M.WriteStage, M.FlushStage, M.ShutdownStage;
      hist := hist.(offered := hist.appended);
      if pause || stream.None? {
        return None;
      }
      var exit := ApplyNodelay();
      if exit.Return? {
        return exit.error;
      }
      exit := WriteOut();
      if exit.Return? {
        return exit.error;
      }
      exit := FlushStream();
      if exit.Return? {
        return exit.error;
      }
      exit := CloseOutput();
      return if exit.Return? then exit.error else None;
    }

    // -------------------------------------------------------------- reading

    /** Moves the unread bytes to the start of the buffer. */
    method Compact()
      requires Valid()
      modifies this`rd, this`wr, inp
      ensures Valid() && rd == 0 && wr == old(wr) - old(rd)
      ensures inp[rd..wr] == old(inp[rd..wr])
    {
      ghost var unread := inp[rd..wr];
      forall i | 0 <= i < wr - rd {
        inp[i] := inp[rd + i];
      }
      wr := wr - rd;
      rd := 0;
      assert inp[..wr] == unread;
    }

    /** Makes room for `max` more bytes.  The unread bytes stay as they are, whether the offsets
        are reset, the bytes are moved down or the buffer grows; it grows only when moving them
        down cannot make the room. */
    method InpMakespace(max: nat)
      requires Valid()
      requires wr - rd + max <= ISIZE_MAX && 2 * max <= ISIZE_MAX
      modifies this`inp, this`rd, this`wr, inp
      ensures Valid()
      ensures inp == old(inp) || fresh(inp)
      ensures wr + max <= inp.Length
      ensures inp[rd..wr] == old(inp[rd..wr])
      ensures inp.Length == old(inp.Length)
              || (old(inp.Length) < wr - rd + max && inp.Length <= LengthBound(wr - rd, max))
      ensures Spare(old(rd), old(wr), old(inp.Length), max, inp.Length - wr - max)
    {
      hide GrowthLimit, LengthBound;
      if rd == wr {
        rd := 0;
        wr := 0;
      }
      assert Valid();
      if wr + max <= inp.Length {
        return;
      }
      if rd != 0 {
        Compact();
        if wr + max <= inp.Length {
          return;
        }
      }
      var end := Max(wr + max, max * 2);
      GrowthWithinBound(inp.Length, wr, max);
      if inp.Length < end {
        Grow(end);
      }
    }

    /** Extends the buffer with zeroes to a capacity of the allocator's choice. */
    method Grow(end: nat)
      requires Valid() && rd == 0 && inp.Length < end
      modifies this`inp
      ensures Valid() && fresh(inp)
      ensures inp[rd..wr] == old(inp[rd..wr])
      ensures end <= inp.Length <= GrowthLimit(old(inp.Length), end)
    {
      var capacity: nat :| end <= capacity <= GrowthLimit(inp.Length, end);
      var grown := new byte[capacity](_ => 0);
      forall i | 0 <= i < inp.Length {
        grown[i] := inp[i];
      }
      assert grown[..wr] == inp[..wr];
      inp := grown;
    }

    /** Copies bytes in at the write offset. */
    method Fill(data: seq<byte>)
      requires rd <= wr && wr + |data| <= inp.Length
      modifies this`wr, inp
      ensures wr == old(wr) + |data|
      ensures inp[rd..wr] == old(inp[rd..wr]) + data
    {
      forall i | 0 <= i < |data| {
        inp[wr + i] := data[i];
      }
      wr := wr + |data|;
      assert inp[..wr] == old(inp[..wr]) + data;
    }

    method Read(max: nat) returns (status: M.ReadStatus)
      requires Valid()
      requires wr - rd + max <= ISIZE_MAX && 2 * max <= ISIZE_MAX
      modifies this`inp, this`rd, this`wr, this`stream, this`inpEof, this`hist, inp
      ensures Valid()
      ensures inp == old(inp) || fresh(inp)
      ensures (Model(), status) == M.Read(old(Model()), max)
      ensures inp.Length == old(inp.Length)
              || (old(inp.Length) < |old(Model()).unread| + max
                  && inp.Length <= LengthBound(|old(Model()).unread|, max))
    {
      InpMakespace(max);
      if stream.None? {
        return M.NoData;
      }
      var s := stream.value;
      var (t, io) := s.Read(max);
      while io.Again?
        invariant M.ReadLoop(stream.value, max) == if io.Again? then M.ReadLoop(t, max) else (t, io)
        decreases io.Again?, |t.script|
      {
        var r := t.Read(max);
        t, io := r.0, r.1;
      }
      status := Receive(t, io, max);
    }

    /** Takes in what the stream answered to a read of `max` bytes. */
    method Receive(t: Sock, io: Io<seq<byte>>, ghost max: nat) returns (status: M.ReadStatus)
      requires Valid() && stream.Some? && wr + max <= inp.Length
      requires (t, io) == M.ReadLoop(stream.value, max)
      modifies this`wr, this`stream, this`inpEof, this`hist, inp
      ensures Valid()
      ensures (Model(), status) == M.Read(old(Model()), max)
    {
      ghost var m := Model();
      hide M.ReadLoop;
      assert m.unread + [] == m.unread;
      match io {
        case Ok(got) =>
          Fill(got);
          if got == [] {
            inpEof := true;
            status := M.EndOfStream;
          } else {
            status := M.NewData;
          }
        case Failed(code) =>
          status := M.ReadError(code);
        case _ =>
          status := M.NoData;
      }
      stream := Some(t);
      hist := M.Read(m, max).0.hist;
    }

    /** Copies the first `len` unread bytes out and moves the read offset past them. */
    method Drain(buf: array<byte>, len: nat)
      requires Valid() && buf != inp && len <= wr - rd && len <= buf.Length
      modifies this`rd, buf
      ensures Valid() && inp[rd..wr] == old(inp[rd..wr][len..])
      ensures buf[..len] == old(inp[rd..wr][..len])
      ensures buf[len..] == old(buf[len..])
    {
      forall i | 0 <= i < len {
        buf[i] := inp[rd + i];
      }
      rd := rd + len;
    }

    /** The `Read` trait: copies unread bytes to `buf` and returns how many, or None for the error
        that there is nothing to read yet. */
    method ReadInto(buf: array<byte>) returns (n: Option<nat>)
      requires Valid() && buf != inp
      modifies this`rd, this`hist, buf
      ensures Valid()
      ensures Model() == M.ReadBytes(old(Model()), buf.Length).0
      ensures var data := M.ReadBytes(old(Model()), buf.Length).1;
              if data.None? then n == None && buf[..] == old(buf[..])
              else n == Some(|data.value|) && |data.value| <= buf.Length
                   && buf[..|data.value|] == data.value && buf[|data.value|..] == old(buf[|data.value|..])
    {
      ghost var m := Model();
      if wr == rd {
        n := if inpEof then Some(0) else None;
      } else {
        var len := if buf.Length < wr - rd then buf.Length else wr - rd;
        Drain(buf, len);
        n := Some(len);
        hist := M.ReadBytes(m, buf.Length).0.hist;
      }
    }

    /** Records that someone other than the stream has put `data` at the write offset. */
    method Deposit(data: seq<byte>)
      requires Valid() && wr + |data| <= inp.Length
      modifies this`wr, this`hist, inp
      ensures Valid() && Model() == M.TakeIn(old(Model()), data)
      ensures wr == old(wr) + |data|
      ensures (hist.appended, hist.consumed) == old((hist.appended, hist.consumed))
    {
      hist := M.TakeIn(Model(), data).hist;
      Fill(data);
    }

    /** Takes over bytes received elsewhere. */
    method Absorb(data: seq<byte>)
      requires Valid()
      requires wr - rd + |data| <= ISIZE_MAX && 2 * |data| <= ISIZE_MAX
      modifies this`inp, this`rd, this`wr, inp
      ensures Valid() && (inp == old(inp) || fresh(inp))
      ensures inp[rd..wr] == old(inp[rd..wr]) + data
    {
      InpMakespace(|data|);
      Fill(data);
    }

    /** Forgets the unread bytes. */
    method Reset()
      modifies this`rd, this`wr
      ensures Valid() && inp[rd..wr] == []
    {
      rd := 0;
      wr := 0;
    }

    method HandUp(upstream: TcpStreamBuf)
      requires Valid() && upstream.Valid() && upstream != this
      modifies this`out, this`hist, upstream`out, upstream`outEof, upstream`hist
      ensures Valid() && upstream.Valid()
      ensures (Model(), upstream.Model()) == M.HandUp(old(Model()), old(upstream.Model()))
      ensures (hist.appended, hist.consumed) == old((hist.appended, hist.consumed))
    {
      ghost var m := M.HandUp(Model(), upstream.Model());
      assert upstream.out + [] == upstream.out;
      if out != [] {
        upstream.out := upstream.out + out;
        out := [];
      }
      if outEof {
        upstream.outEof := true;
      }
      hist, upstream.hist := m.0.hist, m.1.hist;
    }

    method TakeDown(upstream: TcpStreamBuf)
      requires Valid() && upstream.Valid() && upstream != this && upstream.inp != inp
      requires wr - rd + (upstream.wr - upstream.rd) <= ISIZE_MAX && 2 * (upstream.wr - upstream.rd) <= ISIZE_MAX
      modifies this`inp, this`rd, this`wr, this`inpEof, this`hist, inp
      modifies upstream`rd, upstream`wr, upstream`hist
      ensures Valid() && upstream.Valid()
      ensures inp == old(inp) || fresh(inp)
      ensures (Model(), upstream.Model()) == M.TakeDown(old(Model()), old(upstream.Model()))
      ensures (hist.appended, hist.consumed) == old((hist.appended, hist.consumed))
    {
      ghost var m := M.TakeDown(Model(), upstream.Model());
      ghost var unread, received := Model().unread, upstream.Model().unread;
      assert unread + [] == unread;
      var readLen := upstream.wr - upstream.rd;
      if readLen > 0 {
        Absorb(upstream.inp[upstream.rd..upstream.wr]);
        upstream.Reset();
      }
      inpEof := inpEof || upstream.inpEof;
      hist, upstream.hist := m.0.hist, m.1.hist;
    }

    /** Hands the output up to `upstream` and takes over what it has received, with the flags for
        the end in both directions. */
    method Exchange(upstream: TcpStreamBuf)
      requires Valid() && upstream.Valid() && upstream != this && upstream.inp != inp
      requires wr - rd + (upstream.wr - upstream.rd) <= ISIZE_MAX && 2 * (upstream.wr - upstream.rd) <= ISIZE_MAX
      modifies this`inp, this`rd, this`wr, this`out, this`inpEof, this`hist, inp
      modifies upstream`out, upstream`outEof, upstream`rd, upstream`wr, upstream`hist
      ensures Valid() && upstream.Valid()
      ensures inp == old(inp) || fresh(inp)
      ensures (Model(), upstream.Model()) == M.Exchange(old(Model()), old(upstream.Model()))
      ensures (hist.appended, hist.consumed) == old((hist.appended, hist.consumed))
    {
      hide M.HandUp, M.TakeDown;
      HandUp(upstream);
      TakeDown(upstream);
    }
  }

  /** On every run the implementation gives the results that the two byte queues give, and its
      input buffer stays within a bound that depends on the application's habits only. */
  method RunStreamBuf(ops: seq<M.Op>, unread: nat, max: nat) returns (outs: seq<M.Outcome>, length: nat)
    requires Moderate(M.Empty, ops, unread, max)
    requires unread + max <= ISIZE_MAX && 2 * max <= ISIZE_MAX
    ensures outs == M.Outcomes(M.Empty, ops)
    ensures length <= LengthBound(unread, max)
  {
    var b := new TcpStreamBuf();
    outs := [];
    var n := 0;
    while n < |ops|
      invariant n <= |ops|
      invariant fresh(b) && fresh(b.inp) && b.Valid()
      invariant Moderate(b.Model(), ops[n..], unread, max)
      invariant outs + M.Outcomes(b.Model(), ops[n..]) == M.Outcomes(M.Empty, ops)
      invariant b.inp.Length <= LengthBound(unread, max)
    {
      assert ops[n..][0] == ops[n] && ops[n..][1..] == ops[n + 1..];
      var out := Perform(b, ops[n], unread, max);
      Regroup(outs, out, M.Outcomes(b.Model(), ops[n + 1..]));
      outs := outs + [out];
      n := n + 1;
    }
    length := b.inp.Length;
  }

  lemma Regroup(a: seq<M.Outcome>, x: M.Outcome, b: seq<M.Outcome>)
    ensures a + ([x] + b) == a + [x] + b
  {
  }

  method PerformReadBytes(b: TcpStreamBuf, room: nat) returns (out: M.Outcome)
    requires b.Valid()
    modifies b`rd, b`hist
    ensures b.Valid()
    ensures b.Model() == M.ReadBytes(old(b.Model()), room).0
    ensures out == M.Bytes(M.ReadBytes(old(b.Model()), room).1)
  {
    var buf := new byte[room];
    var n := b.ReadInto(buf);
    out := M.Bytes(if n.Some? then Some(buf[..n.value]) else None);
  }

  method Perform(b: TcpStreamBuf, op: M.Op, ghost unread: nat, ghost max: nat) returns (out: M.Outcome)
    requires b.Valid()
    requires op.OpRead? || op.OpMakeSpace? ==> |b.Model().unread| <= unread && op.max <= max
    requires unread + max <= ISIZE_MAX && 2 * max <= ISIZE_MAX
    modifies b, b.inp
    ensures b.Valid() && (b.inp == old(b.inp) || fresh(b.inp))
    ensures (b.Model(), out) == M.Step(old(b.Model()), op)
    ensures b.inp.Length <= Max(old(b.inp.Length), LengthBound(unread, max))
  {
    hide M.Flush, M.Read, M.ReadBytes, M.Init, M.Retire, M.SetNodelay, M.Append, LengthBound;
    out := M.Unit;
    if op.OpRead? || op.OpMakeSpace? {
      BoundGrows(|b.Model().unread|, op.max, unread, max);
    }
    match op {
      case OpInit(script) => b.Init(script);
      case OpDeinit => b.Deinit();
      case OpSetNodelay(flag) => b.SetNodelay(flag);
      case OpPauseWrites(flag) => b.PauseWrites(flag);
      case OpFlush =>
        var error := b.Flush();
        out := M.Flushed(error);
      case OpMakeSpace(room) => b.InpMakespace(room);
      case OpRead(room) =>
        var status := b.Read(room);
        out := M.Status(status);
      case OpReadBytes(room) =>
        out := PerformReadBytes(b, room);
      case OpAppend(data) =>
        var n := b.Write(data);
      case OpSetOutEof(flag) => b.SetOutEof(flag);
    }
  }
}
