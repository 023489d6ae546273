/**
 The TLS server engine wrapper as implemented: it moves data between the connection's buffer `ext`
 and the application's buffer `inside`, by way of a TLS engine or, without one, unchanged.
 */
module TlsServerEngine {

  import opened Common
  import opened Engine
  import opened TcpStreamBuf
  import opened TlsModel
  import B = TcpStreamBuf
  import T = TlsModel
  import M = StreamModel
  import P = PassThrough
  import S = Socket
  import opened TlsRuns
  import opened TlsReading
  import opened TlsEnds

  /** The slack of a round that asks for this much room, if that is not too large to allocate. */
  predicate Left(rd: nat, wr: nat, length: nat, room: nat, slack: nat) {
    0 < room && wr - rd + room <= ISIZE_MAX && 2 * room <= ISIZE_MAX ==> Spare(rd, wr, length, room, slack)
  }

  class TlsServerEngine {
    var sc: Option<Engine>
    var sentOutEof: bool
    var inpEof: Option<TlsEof>
    ghost var notices: seq<Notice>

    constructor (config: Option<seq<Reply>>)
      ensures sc == if config.Some? then Some(New(config.value)) else None
      ensures !sentOutEof && inpEof == None && notices == []
    {
      sc := if config.Some? then Some(New(config.value)) else None;
      sentOutEof := false;
      inpEof := None;
      notices := [];
    }

    ghost predicate Apart(ext: TcpStreamBuf, inside: TcpStreamBuf)
      reads ext, inside, ext.inp, inside.inp
    {
      ext != inside && ext.inp != inside.inp && ext.Valid() && inside.Valid()
    }

    /** The state with an engine, on values. */
    ghost function Model(ext: TcpStreamBuf, inside: TcpStreamBuf): Tls
      requires sc.Some? && Apart(ext, inside)
      reads this, ext, inside, ext.inp, inside.inp
    {
      Tls(sc.value, ext.Model(), inside.Model(), sentOutEof, inpEof, notices)
    }

    /** The state without an engine, on values. */
    ghost function PassModel(ext: TcpStreamBuf, inside: TcpStreamBuf): P.Pass
      requires Apart(ext, inside)
      reads this, ext, inside, ext.inp, inside.inp
    {
      P.Pass(inside.Model(), ext.Model(), inpEof)
    }

    // -------------------------------------------------------------- without an engine

    /** Passes data through unchanged. */
    method PassThrough(ext: TcpStreamBuf, inside: TcpStreamBuf) returns (r: P.Processed)
      requires Apart(ext, inside)
      requires |inside.Model().unread| + |ext.Model().unread| <= ISIZE_MAX && 2 * |ext.Model().unread| <= ISIZE_MAX
      modifies this`inpEof, ext, inside, inside.inp
      ensures Apart(ext, inside)
      ensures ext.inp == old(ext.inp) && (inside.inp == old(inside.inp) || fresh(inside.inp))
      ensures (PassModel(ext, inside), r) == P.Process(old(PassModel(ext, inside)))
    {
      hide M.Flush, M.Exchange;
      inside.Exchange(ext);
      if inside.inpEof {
        inpEof := Some(Close);
      }
      var error := ext.Flush();
      return if error.Some? then P.TlsError else P.Eof(inpEof);
    }

    // -------------------------------------------------------------- with an engine

    method NoteFinish(ext: TcpStreamBuf, inside: TcpStreamBuf)
      requires sc.Some? && Apart(ext, inside)
      modifies this`sc, ext`outEof
      ensures sc.Some? && Apart(ext, inside)
      ensures Model(ext, inside) == T.NoteFinish(old(Model(ext, inside)))
    {
      if sentOutEof {
        var (e, more) := sc.value.WantsWrite();
        sc := Some(e);
        if !more {
          ext.SetOutEof(true);
        }
      }
    }

    method WriteBranch(ext: TcpStreamBuf, inside: TcpStreamBuf) returns (stop: Option<Result>)
      requires sc.Some? && Apart(ext, inside)
      modifies this`sc, ext
      ensures sc.Some? && Apart(ext, inside) && ext.inp == old(ext.inp)
      ensures (Model(ext, inside), stop) == T.WriteBranch(old(Model(ext, inside)))
    {
      hide M.Flush, M.Append, T.NoteFinish;
      var (e, data) := sc.value.WriteTls();
      sc := Some(e);
      if data.None? {
        return Some(TlsError);
      }
      var written := ext.Write(data.value);
      NoteFinish(ext, inside);
      var error := ext.Flush();
      return if error.Some? then Some(TlsError) else None;
    }

    method PlainBranch(ext: TcpStreamBuf, inside: TcpStreamBuf) returns (stop: Option<Result>)
      requires sc.Some? && Apart(ext, inside)
      modifies this`sc, inside`out, inside`hist
      ensures sc.Some? && Apart(ext, inside)
      ensures (Model(ext, inside), stop) == T.PlainBranch(old(Model(ext, inside)))
    {
      hide M.PassOn;
      var (e, len) := sc.value.WritePlain(inside.out);
      sc := Some(e);
      if len.None? {
        return Some(TlsError);
      }
      inside.DrainOut(len.value);
      return None;
    }

    method CloseBranch(ext: TcpStreamBuf, inside: TcpStreamBuf)
      requires sc.Some? && Apart(ext, inside)
      modifies this`sc, this`sentOutEof, this`notices
      ensures sc.Some?
      ensures Model(ext, inside) == T.CloseBranch(old(Model(ext, inside)))
    {
      notices := notices + [Notice(sc.value.plainIn, inside.hist.appended, inside.outEof, inside.out)];
      sc := Some(sc.value.SendCloseNotify());
      sentOutEof := true;
    }

    method TakeTls(ext: TcpStreamBuf, inside: TcpStreamBuf) returns (stop: Option<Result>)
      requires sc.Some? && Apart(ext, inside)
      modifies this`sc, ext`rd, ext`hist
      ensures sc.Some? && Apart(ext, inside)
      ensures (Model(ext, inside), stop) == T.TakeTls(old(Model(ext, inside)))
    {
      hide M.ReadBytes;
      var (e, room) := sc.value.ReadRoom();
      sc := Some(e);
      if room.None? {
        return Some(TlsError);
      }
      var buf := new byte[room.value];
      var n := ext.ReadInto(buf);
      sc := Some(e.TakeTls(if n.Some? then buf[..n.value] else []));
      return None;
    }

    method ReadOne(ext: TcpStreamBuf, inside: TcpStreamBuf) returns (plain: Plain)
      requires sc.Some? && Apart(ext, inside)
      modifies this`sc, this`inpEof, inside`wr, inside`hist, inside.inp
      ensures sc.Some? && Apart(ext, inside)
      ensures (Model(ext, inside), plain)
              == T.ReadOne(old(Model(ext, inside)), old(inside.inp.Length - inside.wr))
      ensures inside.wr == old(inside.wr) + if plain.Data? then |plain.bytes| else 0
    {
      hide M.TakeIn;
      var (e, answer) := sc.value.ReadPlain(inside.inp.Length - inside.wr);
      sc := Some(e);
      plain := answer;
      if plain.CutShort? {
        inpEof := Some(Abort);
      } else if plain.Data? {
        inside.Deposit(plain.bytes);
        if plain.bytes == [] {
          inpEof := Some(Close);
        }
      }
    }

    method DrainPlain(ext: TcpStreamBuf, inside: TcpStreamBuf, fuel: nat) returns (stop: Option<Result>)
      requires sc.Some? && Apart(ext, inside)
      modifies this`sc, this`inpEof, inside`wr, inside`hist, inside.inp
      ensures sc.Some? && Apart(ext, inside)
      ensures (Model(ext, inside), stop)
              == T.DrainPlain(old(Model(ext, inside)), old(inside.inp.Length - inside.wr), fuel)
    {
      hide T.ReadOne;
      for n := 0 to fuel
        invariant sc.Some? && Apart(ext, inside)
        invariant T.DrainPlain(Model(ext, inside), inside.inp.Length - inside.wr, fuel - n)
                  == T.DrainPlain(old(Model(ext, inside)), old(inside.inp.Length - inside.wr), fuel)
      {
        var plain := ReadOne(ext, inside);
        if plain.Empty? {
          return None;
        } else if plain.Broken? {
          return Some(TlsError);
        }
      }
      return Some(Cut);
    }

    /** Reads the plaintext that the engine announced. */
    method ReadAnnounced(ext: TcpStreamBuf, inside: TcpStreamBuf, readLen: nat, fuel: nat)
      returns (stop: Option<Result>, ghost slack: nat)
      requires sc.Some? && Apart(ext, inside)
      requires inside.wr - inside.rd + readLen <= ISIZE_MAX && 2 * readLen <= ISIZE_MAX
      modifies this`sc, this`inpEof, inside`inp, inside`rd, inside`wr, inside`hist, inside.inp
      ensures sc.Some? && Apart(ext, inside) && (inside.inp == old(inside.inp) || fresh(inside.inp))
      ensures (Model(ext, inside), stop) == T.DrainPlain(old(Model(ext, inside)), readLen + slack, fuel)
      ensures Spare(old(inside.rd), old(inside.wr), old(inside.inp.Length), readLen, slack)
    {
      hide T.DrainPlain, Spare;
      inside.InpMakespace(readLen);
      slack := inside.inp.Length - inside.wr - readLen;
      stop := DrainPlain(ext, inside, fuel);
    }

    /** Lets the engine process what it took in, and reads the plaintext it announces. */
    method Packets(ext: TcpStreamBuf, inside: TcpStreamBuf, fuel: nat)
      returns (stop: Option<Result>, ghost slack: nat)
      requires sc.Some? && Apart(ext, inside)
      modifies this`sc, this`inpEof, inside`inp, inside`rd, inside`wr, inside`hist, inside.inp
      ensures sc.Some? && Apart(ext, inside) && (inside.inp == old(inside.inp) || fresh(inside.inp))
      ensures (Model(ext, inside), stop) == T.Packets(old(Model(ext, inside)), slack, fuel)
      ensures var readLen := old(sc).value.ProcessNewPackets().1;
              readLen.Some? ==> Left(old(inside.rd), old(inside.wr), old(inside.inp.Length), readLen.value, slack)
    {
      hide T.DrainPlain, Spare;
      slack := 0;
      var (e, readLen) := sc.value.ProcessNewPackets();
      sc := Some(e);
      if readLen.None? {
        return Some(TlsError), slack;
      }
      if readLen.value == 0 {
        return None, slack;
      }
      if inside.wr - inside.rd + readLen.value > ISIZE_MAX || 2 * readLen.value > ISIZE_MAX {
        return Some(Panicked), slack;
      }
      stop, slack := ReadAnnounced(ext, inside, readLen.value, fuel);
    }

    method ReadBranch(ext: TcpStreamBuf, inside: TcpStreamBuf, fuel: nat)
      returns (stop: Option<Result>, ghost slack: nat)
      requires sc.Some? && Apart(ext, inside)
      modifies this`sc, this`inpEof, ext`rd, ext`hist
      modifies inside`inp, inside`rd, inside`wr, inside`hist, inside.inp
      ensures sc.Some? && Apart(ext, inside) && (inside.inp == old(inside.inp) || fresh(inside.inp))
      ensures (Model(ext, inside), stop) == T.ReadBranch(old(Model(ext, inside)), slack, fuel)
      ensures Left(old(inside.rd), old(inside.wr), old(inside.inp.Length), T.Announced(old(Model(ext, inside))), slack)
    {
      hide T.TakeTls, T.Packets, Spare;
      slack := 0;
      stop := TakeTls(ext, inside);
      if stop.None? {
        stop, slack := Packets(ext, inside, fuel);
      }
    }

    /** One round of the TLS loop; the result, if it is the last. */
    method Round(ext: TcpStreamBuf, inside: TcpStreamBuf, fuel: nat)
      returns (stop: Option<Result>, ghost slack: nat)
      requires sc.Some? && Apart(ext, inside)
      modifies this, ext, inside, inside.inp
      ensures sc.Some? && Apart(ext, inside)
      ensures ext.inp == old(ext.inp) && (inside.inp == old(inside.inp) || fresh(inside.inp))
      ensures (Model(ext, inside), stop) == T.Round(old(Model(ext, inside)), slack, fuel)
      ensures Left(old(inside.rd), old(inside.wr), old(inside.inp.Length), T.RoomAsked(old(Model(ext, inside))), slack)
    {
      hide T.WriteBranch, T.PlainBranch, T.CloseBranch, T.ReadBranch, T.Announced, Spare;
      slack := 0;
      var (e, write) := sc.value.WantsWrite();
      sc := Some(e);
      if write {
        stop := WriteBranch(ext, inside);
      } else if inside.out != [] {
        stop := PlainBranch(ext, inside);
      } else if inside.outEof && inside.out == [] && !sentOutEof {
        CloseBranch(ext, inside);
        stop := None;
      } else {
        var (e', read) := sc.value.WantsRead();
        sc := Some(e');
        if read && ext.rd != ext.wr {
          stop, slack := ReadBranch(ext, inside, fuel);
        } else {
          stop := Some(Eof(inpEof));
        }
      }
    }

    /** The TLS loop, observed for at most `fuel` rounds. */
    method Pump(ext: TcpStreamBuf, inside: TcpStreamBuf, fuel: nat)
      returns (r: Result, ghost slacks: seq<nat>)
      requires sc.Some? && Apart(ext, inside)
      modifies this, ext, inside, inside.inp
      ensures sc.Some? && Apart(ext, inside)
      ensures ext.inp == old(ext.inp) && (inside.inp == old(inside.inp) || fresh(inside.inp))
      ensures (Model(ext, inside), r) == T.Pump(old(Model(ext, inside)), slacks, fuel)
      ensures |slacks| == fuel || T.Complete(old(Model(ext, inside)), slacks, fuel)
      ensures var room := T.RoomAsked(old(Model(ext, inside)));
              fuel > 0 ==> |slacks| > 0 && Left(old(inside.rd), old(inside.wr), old(inside.inp.Length), room, slacks[0])
    {
      hide T.Round, T.Pump, T.LeadsTo, T.Complete, T.RoomAsked, Left;
      slacks := [];
      T.LeadsToStart(Model(ext, inside), fuel);
      for n := 0 to fuel
        invariant sc.Some? && Apart(ext, inside) && |slacks| == n
        invariant ext.inp == old(ext.inp) && (inside.inp == old(inside.inp) || fresh(inside.inp))
        invariant T.LeadsTo(old(Model(ext, inside)), slacks, Model(ext, inside), fuel)
        invariant n == 0 ==> Model(ext, inside) == old(Model(ext, inside))
        invariant n == 0 ==> (inside.rd, inside.wr, inside.inp) == old((inside.rd, inside.wr, inside.inp))
        invariant n > 0 ==> Left(old(inside.rd), old(inside.wr), old(inside.inp.Length),
                                 T.RoomAsked(old(Model(ext, inside))), slacks[0])
      {
        ghost var m := Model(ext, inside);
        var stop, slack := Round(ext, inside, fuel);
        T.LeadsToStep(old(Model(ext, inside)), slacks, m, slack, fuel);
        slacks := slacks + [slack];
        if stop.Some? {
          return stop.value, slacks;
        }
      }
      T.LeadsToCut(old(Model(ext, inside)), slacks, Model(ext, inside), fuel);
      return Cut, slacks;
    }

    /** Moves as much data as possible between the two buffers.  With an engine this is the loop,
        without one the pass-through. */
    method Process(ext: TcpStreamBuf, inside: TcpStreamBuf, fuel: nat)
      returns (r: Result, ghost slacks: seq<nat>)
      requires Apart(ext, inside)
      modifies this, ext, inside, inside.inp
      ensures Apart(ext, inside)
      ensures ext.inp == old(ext.inp) && (inside.inp == old(inside.inp) || fresh(inside.inp))
      ensures sc.Some? <==> old(sc).Some?
      ensures sc.Some? ==> (Model(ext, inside), r) == T.Pump(old(Model(ext, inside)), slacks, fuel)
      ensures sc.Some? ==> |slacks| == fuel || T.Complete(old(Model(ext, inside)), slacks, fuel)
      ensures sc.Some? && fuel > 0 ==>
                && |slacks| > 0
                && Left(old(inside.rd), old(inside.wr), old(inside.inp.Length),
                        T.RoomAsked(old(Model(ext, inside))), slacks[0])
      ensures sc.None? && !r.Panicked? ==>
                && (r.TlsError? || r.Eof?)
                && (PassModel(ext, inside), if r.Eof? then P.Eof(r.state) else P.TlsError)
                   == P.Process(old(PassModel(ext, inside)))
      ensures sc.None? ==>
                && (r.Panicked? <==> old(|inside.Model().unread| + |ext.Model().unread| > ISIZE_MAX
                                         || 2 * |ext.Model().unread| > ISIZE_MAX))
                && (r.Panicked? ==> PassModel(ext, inside) == old(PassModel(ext, inside)))
    {
      hide P.Process, T.Pump, T.Complete, T.RoomAsked, Left;
      slacks := [];
      if sc.Some? {
        r, slacks := Pump(ext, inside, fuel);
      } else if inside.wr - inside.rd + (ext.wr - ext.rd) > ISIZE_MAX || 2 * (ext.wr - ext.rd) > ISIZE_MAX {
        r := Panicked;
      } else {
        var p := PassThrough(ext, inside);
        r := if p.Eof? then Eof(p.state) else TlsError;
      }
    }
  }

  // ---------------------------------------------------------------- whole runs

  /** A new engine with its two buffers. */
  method OpenTls(config: seq<Reply>) returns (t: TlsServerEngine, ext: TcpStreamBuf, inside: TcpStreamBuf)
    ensures fresh({t, ext, inside, ext.inp, inside.inp})
    ensures t.sc.Some? && t.Apart(ext, inside) && t.Model(ext, inside) == T.Open(config)
    ensures ext.inp.Length == inside.inp.Length == 0
  {
    ext := new TcpStreamBuf();
    inside := new TcpStreamBuf();
    t := new TlsServerEngine(Some(config));
  }

  /** The operation asks for no allocation that is too large. */
  predicate Fits(waiting: nat, op: M.Op) {
    op.OpRead? || op.OpMakeSpace? ==> waiting + op.max <= ISIZE_MAX && 2 * op.max <= ISIZE_MAX
  }

  ghost predicate Possible(t: Tls, op: P.Op) {
    match op
    case CallProcess => true
    case OnExt(o) => Fits(|t.ext.unread|, o)
    case OnInside(o) => Fits(|t.inside.unread|, o)
  }

  method PerformOn(b: TcpStreamBuf, op: M.Op) returns (out: M.Outcome)
    requires b.Valid() && Fits(b.wr - b.rd, op)
    modifies b, b.inp
    ensures b.Valid() && (b.inp == old(b.inp) || fresh(b.inp))
    ensures (b.Model(), out) == M.Step(old(b.Model()), op)
  {
    hide M.Step;
    if op.OpRead? || op.OpMakeSpace? {
      out := B.Perform(b, op, b.wr - b.rd, op.max);
    } else {
      out := B.Perform(b, op, 0, 0);
    }
  }

  /** One operation; None if it asks for too large an allocation. */
  method Perform(t: TlsServerEngine, ext: TcpStreamBuf, inside: TcpStreamBuf, op: P.Op, fuel: nat)
    returns (out: Option<Outcome>, ghost slacks: seq<nat>)
    requires t.sc.Some? && t.Apart(ext, inside)
    modifies t, ext, ext.inp, inside, inside.inp
    ensures t.sc.Some? && t.Apart(ext, inside)
    ensures (ext.inp == old(ext.inp) || fresh(ext.inp)) && (inside.inp == old(inside.inp) || fresh(inside.inp))
    ensures out.Some? <==> Possible(old(t.Model(ext, inside)), op)
    ensures out.Some? ==> (t.Model(ext, inside), out.value) == T.Step(old(t.Model(ext, inside)), op, slacks, fuel)
    ensures T.Observed(old(t.Model(ext, inside)), op, slacks, fuel)
    ensures out.None? ==> t.Model(ext, inside) == old(t.Model(ext, inside))
  {
    hide M.Step, T.Pump, T.Complete;
    out, slacks := None, [];
    match op {
      case CallProcess =>
        var r: Result;
        r, slacks := t.Process(ext, inside, fuel);
        out := Some(P.Called(r));
      case OnExt(o) =>
        if Fits(ext.wr - ext.rd, o) {
          var did := PerformOn(ext, o);
          out := Some(P.Did(did));
        }
      case OnInside(o) =>
        if Fits(inside.wr - inside.rd, o) {
          var did := PerformOn(inside, o);
          out := Some(P.Did(did));
        }
    }
  }

  lemma RunIsSound(config: seq<Reply>, ops: seq<P.Op>, slacks: seq<seq<nat>>, fuel: nat)
    requires |slacks| == |ops| && P.AllProper(ops)
    ensures var z := T.Run(T.Open(config), ops, slacks, fuel);
            && P.WrittenBy(ops) == z.e.plainIn + z.inside.out
            && z.e.plainOut == P.TakenFrom(ops, T.Outcomes(T.Open(config), ops, slacks, fuel)) + z.inside.unread
            && z.e.notifications <= 1
            && (z.ext.outEof && !OwnerEnds(ops) ==> z.e.notifications == 1 && z.e.finishes > 0)
  {
    EndToEnd(config, ops, slacks, fuel);
    RunKeeps(config, ops, slacks, fuel);
    hide T.Run, T.Outcomes, Linked, Ended, Settled;
  }

  /** A run of the implementation with an engine, up to the first operation that asks for too large an
      allocation: its outcomes, its engine and what waits in the application's buffer are those of
      the model, for some slack left by the buffers in each round.  So no plaintext is lost either way,
      and unless its owner ends it, the connection is told to close only after close_notify. */
  method RunTls(config: seq<Reply>, ops: seq<P.Op>, fuel: nat)
    returns (n: nat, outs: seq<Outcome>, e: Engine, waitingOut: seq<byte>, waitingIn: seq<byte>, outEof: bool,
             ghost slacks: seq<seq<nat>>)
    ensures n <= |ops| && |slacks| == n
    ensures outs == T.Outcomes(T.Open(config), ops[..n], slacks, fuel)
    ensures var z := T.Run(T.Open(config), ops[..n], slacks, fuel);
            && e == z.e && waitingOut == z.inside.out && waitingIn == z.inside.unread && outEof == z.ext.outEof
            && (n < |ops| ==> !Possible(z, ops[n]))
    ensures T.AllObserved(T.Open(config), ops[..n], slacks, fuel)
    ensures P.AllProper(ops) ==>
              && P.WrittenBy(ops[..n]) == e.plainIn + waitingOut
              && e.plainOut == P.TakenFrom(ops[..n], outs) + waitingIn
              && e.notifications <= 1
              && (outEof && !OwnerEnds(ops[..n]) ==> e.notifications == 1 && e.finishes > 0)
  {
    hide T.Step, T.Run, T.Outcomes, T.AllObserved, T.Observed, T.Open, Possible;
    var t, ext, inside := OpenTls(config);
    n, outs, slacks := 0, [], [];
    assert ops[..0] == [];
    T.RunNothing(T.Open(config), fuel);
    while n < |ops|
      invariant n <= |ops| && |slacks| == n
      invariant fresh({t, ext, inside, ext.inp, inside.inp})
      invariant t.sc.Some? && t.Apart(ext, inside)
      invariant t.Model(ext, inside) == T.Run(T.Open(config), ops[..n], slacks, fuel)
      invariant outs == T.Outcomes(T.Open(config), ops[..n], slacks, fuel)
      invariant T.AllObserved(T.Open(config), ops[..n], slacks, fuel)
    {
      var out, s := Perform(t, ext, inside, ops[n], fuel);
      if out.None? {
        break;
      }
      T.RunMore(T.Open(config), ops[..n], slacks, ops[n], s, fuel);
      assert ops[..n + 1] == ops[..n] + [ops[n]];
      outs, slacks := outs + [out.value], slacks + [s];
      n := n + 1;
    }
    e, waitingOut, waitingIn := t.sc.value, inside.out, inside.inp[inside.rd..inside.wr];
    outEof := ext.outEof;
    if P.AllProper(ops) {
      RunIsSound(config, ops[..n], slacks, fuel);
    }
  }

  // ---------------------------------------------------------------- whole runs without an engine

  method OpenPass() returns (t: TlsServerEngine, ext: TcpStreamBuf, inside: TcpStreamBuf)
    ensures fresh({t, ext, inside, ext.inp, inside.inp})
    ensures t.sc.None? && t.Apart(ext, inside) && t.PassModel(ext, inside) == P.Start
  {
    ext := new TcpStreamBuf();
    inside := new TcpStreamBuf();
    t := new TlsServerEngine(None);
  }

  ghost predicate PassPossible(p: P.Pass, op: P.Op) {
    match op
    case CallProcess =>
      |p.inside.unread| + |p.ext.unread| <= ISIZE_MAX && 2 * |p.ext.unread| <= ISIZE_MAX
    case OnExt(o) => Fits(|p.ext.unread|, o)
    case OnInside(o) => Fits(|p.inside.unread|, o)
  }

  /** One operation; None if it asks for too large an allocation. */
  method PerformPass(t: TlsServerEngine, ext: TcpStreamBuf, inside: TcpStreamBuf, op: P.Op)
    returns (out: Option<P.Outcome<P.Processed>>)
    requires t.sc.None? && t.Apart(ext, inside)
    modifies t, ext, ext.inp, inside, inside.inp
    ensures t.sc.None? && t.Apart(ext, inside)
    ensures (ext.inp == old(ext.inp) || fresh(ext.inp)) && (inside.inp == old(inside.inp) || fresh(inside.inp))
    ensures out.Some? <==> PassPossible(old(t.PassModel(ext, inside)), op)
    ensures out.Some? ==> (t.PassModel(ext, inside), out.value) == P.Step(old(t.PassModel(ext, inside)), op)
    ensures out.None? ==> t.PassModel(ext, inside) == old(t.PassModel(ext, inside))
  {
    hide M.Step, P.Process;
    out := None;
    match op {
      case CallProcess =>
        ghost var slacks: seq<nat>;
        var r: Result;
        r, slacks := t.Process(ext, inside, 0);
        if !r.Panicked? {
          out := Some(P.Called(if r.Eof? then P.Eof(r.state) else P.TlsError));
        }
      case OnExt(o) =>
        if Fits(ext.wr - ext.rd, o) {
          var did := PerformOn(ext, o);
          out := Some(P.Did(did));
        }
      case OnInside(o) =>
        if Fits(inside.wr - inside.rd, o) {
          var did := PerformOn(inside, o);
          out := Some(P.Did(did));
        }
    }
  }

  /** A run of the implementation without an engine, up to the first operation that asks for too large an
      allocation: its outcomes and what waits in the four queues are those of the model, and so what the
      operations wrote is what the streams have accepted but for what waits. */
  method RunPass(ops: seq<P.Op>)
    returns (n: nat, outs: seq<P.Outcome<P.Processed>>, insideOut: seq<byte>, extOut: seq<byte>,
             insideIn: seq<byte>, extIn: seq<byte>, ghost sent: seq<byte>, ghost received: seq<byte>)
    ensures n <= |ops| && outs == P.Outcomes(P.Start, ops[..n])
    ensures var p := P.Run(P.Start, ops[..n]);
            && insideOut == p.inside.out && extOut == p.ext.out
            && insideIn == p.inside.unread && extIn == p.ext.unread
            && sent == M.Sent(p.ext) && received == M.Received(p.ext)
            && (n < |ops| ==> !PassPossible(p, ops[n]))
    ensures P.AllProper(ops) ==>
              && P.WrittenBy(ops[..n]) == sent + extOut + insideOut
              && received == P.TakenFrom(ops[..n], outs) + insideIn + extIn
  {
    hide P.Step, P.Run, P.Outcomes, PassPossible, M.Sent, M.Received;
    var t, ext, inside := OpenPass();
    n, outs := 0, [];
    PassNothing(ops);
    while n < |ops|
      invariant n <= |ops|
      invariant fresh({t, ext, inside, ext.inp, inside.inp})
      invariant t.sc.None? && t.Apart(ext, inside)
      invariant t.PassModel(ext, inside) == P.Run(P.Start, ops[..n])
      invariant outs == P.Outcomes(P.Start, ops[..n])
    {
      var out := PerformPass(t, ext, inside, ops[n]);
      if out.None? {
        break;
      }
      P.RunMore(P.Start, ops[..n], ops[n]);
      assert ops[..n + 1] == ops[..n] + [ops[n]];
      outs := outs + [out.value];
      n := n + 1;
    }
    insideOut, extOut := inside.out, ext.out;
    insideIn, extIn := inside.inp[inside.rd..inside.wr], ext.inp[ext.rd..ext.wr];
    sent, received := M.Sent(ext.Model()), M.Received(ext.Model());
    if P.AllProper(ops) {
      P.EndToEnd(ops[..n]);
    }
  }

  lemma PassNothing(ops: seq<P.Op>)
    ensures P.Run(P.Start, ops[..0]) == P.Start && P.Outcomes(P.Start, ops[..0]) == []
  {
  }

  // ---------------------------------------------------------------- false ends

  /** The room from which announced plaintext is read, if the buffer need not grow for it. */
  function RoomAsIs(rd: nat, wr: nat, length: nat, announced: nat): int {
    var from := if rd == wr then 0 else wr;
    if from + announced <= length then length - from else length - (wr - rd)
  }

  /** When the application's buffer makes room for announced plaintext, its length and offsets decide, with
      the reader's answers, whether the reader is asked without room.  If the buffer must grow, the room is the
      allocator's choice, but enough for what was announced and for twice that less what is unread. */
  lemma FalseCloseByLayout(t: Tls, announced: nat, rd: nat, wr: nat, length: nat, slack: nat, fuel: nat)
    requires rd <= wr <= length && Spare(rd, wr, length, announced, slack)
    ensures var u := DrainPlain(t, announced + slack, fuel).0;
            && t.e.signals <= u.e.signals
            && var askedWithoutRoom := NoRoom in u.e.signals[|t.e.signals|..];
               if wr - rd + announced <= length then
                 askedWithoutRoom <==> Signalled(NoRoom, t.e.script, RoomAsIs(rd, wr, length, announced), fuel)
               else
                 askedWithoutRoom ==>
                   Signalled(NoRoom, t.e.script, Max(announced, Max(2 * announced, wr - rd) - (wr - rd)), fuel)
  {
    hide DrainPlain, Signalled;
    DrainSignals(t, announced + slack, fuel);
    if wr - rd + announced > length && Signalled(NoRoom, t.e.script, announced + slack, fuel) {
      MoreRoom(t.e.script, Max(announced, Max(2 * announced, wr - rd) - (wr - rd)), announced + slack, fuel);
    }
  }

  method ReceiveOne(ext: TcpStreamBuf)
    requires ext.Valid() && ext.Model() == M.Empty
    modifies ext, ext.inp
    ensures ext.Valid() && ext.Model().unread == [9] && (ext.inp == old(ext.inp) || fresh(ext.inp))
  {
    ReadFromNew([9]);
    hide M.Init, M.Read;
    ext.Init([S.Done(0, [9])]);
    var status := ext.Read(1);
  }

  method MakeRoomForEight(inside: TcpStreamBuf)
    requires inside.Valid() && inside.Model() == M.Empty && inside.inp.Length == 0
    modifies inside`inp, inside`rd, inside`wr, inside.inp
    ensures inside.Valid() && inside.Model() == M.Empty && (inside.inp == old(inside.inp) || fresh(inside.inp))
    ensures inside.rd == inside.wr && inside.inp.Length == 8
  {
    inside.InpMakespace(4);
  }

  /** A connection that delivered one byte, and a buffer with room for exactly eight bytes. */
  method FillingTls() returns (t: TlsServerEngine, ext: TcpStreamBuf, inside: TcpStreamBuf)
    ensures fresh({t, ext, inside, ext.inp, inside.inp})
    ensures t.sc.Some? && t.Apart(ext, inside) && Filling(t.Model(ext, inside))
    ensures inside.rd == inside.wr && inside.inp.Length == 8
  {
    hide FullBufferScript;
    t, ext, inside := OpenTls(FullBufferScript());
    MakeRoomForEight(inside);
    ReceiveOne(ext);
  }

  /** A run that reports a clean end although the plaintext has not ended: the buffer has room for
      exactly the announced bytes, and is full when the engine is asked again. */
  method FalseClose() returns (r: Result, e: Engine)
    ensures r == Eof(Some(Close)) && e.signals == [NoRoom]
  {
    hide T.Pump, T.Complete, T.RoomAsked, Filling;
    var t, ext, inside := FillingTls();
    ghost var m := t.Model(ext, inside);
    FalseCloseRoom(m);
    ghost var slacks: seq<nat>;
    r, slacks := t.Process(ext, inside, 3);
    FalseCloseObserved(m, slacks, 3);
    e := t.sc.value;
  }
}
