/**
 The TLS branch of the engine wrapper on values: one round of its loop, the loop, and whole runs
 with the application and the connection's owner at work between the calls.

 The loop need not end, so it is observed for a number of rounds; what holds after any number of
 them holds throughout.  The one thing left open by the buffers is how much room beyond what was
 asked for they leave for plaintext: each round is given that `slack`.
 */
module TlsModel {

  import opened Common
  import opened Engine
  import M = StreamModel
  import P = PassThrough

  /** The state of the output when a close_notify alert was sent. */
  datatype Notice = Notice(plainIn: seq<byte>, appended: seq<byte>, outEof: bool, out: seq<byte>)

  /** What a call of `process` comes to.  `Cut` stops an observation part-way; `Panicked` is an
      allocation that is too large. */
  datatype Result = Eof(state: Option<TlsEof>) | TlsError | Panicked | Cut

  datatype Tls = Tls(
    e: Engine,
    ext: M.Buf,
    inside: M.Buf,
    sentOutEof: bool,
    inpEof: Option<TlsEof>,
    notices: seq<Notice>)               // History

  // ---------------------------------------------------------------- the branches of a round

  /** The engine has protocol data: put it on the connection, note whether that was the last of it
      after close_notify, and flush. */
  function WriteBranch(t: Tls): (Tls, Option<Result>) {
    var (e, data) := t.e.WriteTls();
    if data.None? then (t.(e := e), Some(TlsError)) else
      var u := NoteFinish(t.(e := e, ext := M.Append(t.ext, data.value)));
      var (ext, error) := M.Flush(u.ext);
      (u.(ext := ext), if error.Some? then Some(TlsError) else None)
  }

  function NoteFinish(t: Tls): Tls {
    if !t.sentOutEof then t else
      var (e, more) := t.e.WantsWrite();
      t.(e := e, ext := if more then t.ext else t.ext.(outEof := true))
  }

  /** The application has written: hand it to the engine. */
  function PlainBranch(t: Tls): (Tls, Option<Result>) {
    var (e, len) := t.e.WritePlain(t.inside.out);
    if len.None? then (t.(e := e), Some(TlsError))
    else (t.(e := e, inside := M.PassOn(t.inside, len.value)), None)
  }

  /** The application has ended its output: have the engine say so. */
  function CloseBranch(t: Tls): Tls {
    t.(e := t.e.SendCloseNotify(), sentOutEof := true,
       notices := t.notices + [Notice(t.e.plainIn, t.inside.hist.appended, t.inside.outEof, t.inside.out)])
  }

  /** The engine takes in protocol data. */
  function TakeTls(t: Tls): (Tls, Option<Result>) {
    var (e, room) := t.e.ReadRoom();
    if room.None? then (t.(e := e), Some(TlsError)) else
      var (ext, data) := M.ReadBytes(t.ext, room.value);
      (t.(e := e.TakeTls(if data.Some? then data.value else []), ext := ext), None)
  }

  /** One read of plaintext.  A read that yields nothing is taken for a clean end. */
  function ReadOne(t: Tls, room: nat): (Tls, Plain) {
    var (e, plain) := t.e.ReadPlain(room);
    (t.(e := e,
        inside := if plain.Data? then M.TakeIn(t.inside, plain.bytes) else t.inside,
        inpEof := if plain.CutShort? then Some(Abort)
                  else if plain.Data? && plain.bytes == [] then Some(Close) else t.inpEof), plain)
  }

  /** Reads plaintext into `room` bytes until the engine has no more. */
  function DrainPlain(t: Tls, room: nat, fuel: nat): (Tls, Option<Result>)
    decreases fuel
  {
    if fuel == 0 then (t, Some(Cut)) else
      var (u, plain) := ReadOne(t, room);
      match plain
      case Empty => (u, None)
      case Broken => (u, Some(TlsError))
      case CutShort => DrainPlain(u, room, fuel - 1)
      case Data(bytes) => DrainPlain(u, room - |bytes|, fuel - 1)
  }

  /** The plaintext that the engine announces is read into a buffer with `slack` bytes to spare. */
  function Packets(t: Tls, slack: nat, fuel: nat): (Tls, Option<Result>) {
    var (e, readLen) := t.e.ProcessNewPackets();
    var u := t.(e := e);
    if readLen.None? then (u, Some(TlsError))
    else if readLen.value == 0 then (u, None)
    else if |u.inside.unread| + readLen.value > ISIZE_MAX || 2 * readLen.value > ISIZE_MAX then (u, Some(Panicked))
    else DrainPlain(u, readLen.value + slack, fuel)
  }

  function ReadBranch(t: Tls, slack: nat, fuel: nat): (Tls, Option<Result>) {
    var (u, failed) := TakeTls(t);
    if failed.Some? then (u, failed) else Packets(u, slack, fuel)
  }

  /** The plaintext that is announced once the engine has taken in protocol data. */
  function Announced(t: Tls): nat {
    var (u, failed) := TakeTls(t);
    var readLen := u.e.ProcessNewPackets().1;
    if failed.None? && readLen.Some? then readLen.value else 0
  }

  function AskWrite(t: Tls): Tls {
    t.(e := t.e.WantsWrite().0)
  }

  function AskRead(t: Tls): Tls {
    t.(e := t.e.WantsRead().0)
  }

  /** One round of the loop; the result, if it is the last. */
  function Round(t: Tls, slack: nat, fuel: nat): (Tls, Option<Result>) {
    var u := AskWrite(t);
    if u.e.wantsWrite then WriteBranch(u)
    else if u.inside.out != [] then PlainBranch(u)
    else if u.inside.outEof && !u.sentOutEof then (CloseBranch(u), None)
    else
      var v := AskRead(u);
      if v.e.wantsRead && v.ext.unread != [] then ReadBranch(v, slack, fuel)
      else (v, Some(Eof(v.inpEof)))
  }

  /** The room for plaintext that a round asks for. */
  function RoomAsked(t: Tls): nat {
    var u := AskWrite(t);
    var v := AskRead(u);
    if u.e.wantsWrite || u.inside.out != [] || (u.inside.outEof && !u.sentOutEof) then 0
    else if v.e.wantsRead && v.ext.unread != [] then Announced(v) else 0
  }

  /** The loop, observed for one round per slack. */
  function Pump(t: Tls, slacks: seq<nat>, fuel: nat): (Tls, Result)
    decreases |slacks|
  {
    if slacks == [] then (t, Cut) else
      var (u, stop) := Round(t, slacks[0], fuel);
      if stop.Some? then (u, stop.value) else Pump(u, slacks[1..], fuel)
  }

  /** Rounds with these slacks lead from `t` to `u` without ending the loop. */
  ghost predicate LeadsTo(t: Tls, slacks: seq<nat>, u: Tls, fuel: nat) {
    forall rest: seq<nat> :: Pump(t, slacks + rest, fuel) == Pump(u, rest, fuel)
  }

  /** The loop has ended within these rounds, so that further ones make no difference. */
  ghost predicate Complete(t: Tls, slacks: seq<nat>, fuel: nat) {
    forall more: seq<nat> :: Pump(t, slacks + more, fuel) == Pump(t, slacks, fuel)
  }

  lemma LeadsToStart(t: Tls, fuel: nat)
    ensures LeadsTo(t, [], t, fuel)
  {
    assert forall rest: seq<nat> :: [] + rest == rest;
  }

  lemma LeadsToStep(t: Tls, slacks: seq<nat>, u: Tls, slack: nat, fuel: nat)
    requires LeadsTo(t, slacks, u, fuel)
    ensures var (v, stop) := Round(u, slack, fuel);
            if stop.None? then LeadsTo(t, slacks + [slack], v, fuel)
            else Pump(t, slacks + [slack], fuel) == (v, stop.value) && Complete(t, slacks + [slack], fuel)
  {
    hide Round;
    var (v, stop) := Round(u, slack, fuel);
    assert Pump(t, slacks + [slack], fuel) == Pump(u, [slack], fuel);
    if stop.None? {
      forall rest: seq<nat>
        ensures Pump(t, slacks + [slack] + rest, fuel) == Pump(v, rest, fuel)
      {
        assert slacks + [slack] + rest == slacks + ([slack] + rest);
        assert ([slack] + rest)[1..] == rest;
      }
    } else {
      forall more: seq<nat>
        ensures Pump(t, slacks + [slack] + more, fuel) == Pump(t, slacks + [slack], fuel)
      {
        assert slacks + [slack] + more == slacks + ([slack] + more);
      }
    }
  }

  lemma LeadsToCut(t: Tls, slacks: seq<nat>, u: Tls, fuel: nat)
    requires LeadsTo(t, slacks, u, fuel)
    ensures Pump(t, slacks, fuel) == (u, Cut)
  {
    assert slacks + [] == slacks;
    assert Pump(t, slacks + [], fuel) == Pump(u, [], fuel);
  }

  // ---------------------------------------------------------------- whole runs

  type Outcome = P.Outcome<Result>

  function Open(config: seq<Reply>): Tls {
    Tls(New(config), M.Empty, M.Empty, false, None, [])
  }

  function Step(t: Tls, op: P.Op, slacks: seq<nat>, fuel: nat): (Tls, Outcome) {
    match op
    case CallProcess => var (u, r) := Pump(t, slacks, fuel); (u, P.Called(r))
    case OnExt(o) => var (b, out) := M.Step(t.ext, o); (t.(ext := b), P.Did(out))
    case OnInside(o) => var (b, out) := M.Step(t.inside, o); (t.(inside := b), P.Did(out))
  }

  /** A call of `process` was observed for `fuel` rounds or until it ended. */
  ghost predicate Observed(t: Tls, op: P.Op, slacks: seq<nat>, fuel: nat) {
    op.CallProcess? ==> |slacks| == fuel || Complete(t, slacks, fuel)
  }

  function Run(t: Tls, ops: seq<P.Op>, slacks: seq<seq<nat>>, fuel: nat): Tls
    requires |slacks| == |ops|
    decreases |ops|
  {
    if ops == [] then t else
      var n := |ops| - 1;
      Step(Run(t, ops[..n], slacks[..n], fuel), ops[n], slacks[n], fuel).0
  }

  function Outcomes(t: Tls, ops: seq<P.Op>, slacks: seq<seq<nat>>, fuel: nat): (r: seq<Outcome>)
    requires |slacks| == |ops|
    ensures |r| == |ops|
    decreases |ops|
  {
    if ops == [] then [] else
      var n := |ops| - 1;
      Outcomes(t, ops[..n], slacks[..n], fuel)
      + [Step(Run(t, ops[..n], slacks[..n], fuel), ops[n], slacks[n], fuel).1]
  }

  /** Every call of `process` in the run was observed for `fuel` rounds or until it ended. */
  ghost predicate AllObserved(t: Tls, ops: seq<P.Op>, slacks: seq<seq<nat>>, fuel: nat)
    requires |slacks| == |ops|
    decreases |ops|
  {
    ops == [] ||
    var n := |ops| - 1;
    && AllObserved(t, ops[..n], slacks[..n], fuel)
    && Observed(Run(t, ops[..n], slacks[..n], fuel), ops[n], slacks[n], fuel)
  }

  lemma RunNothing(t: Tls, fuel: nat)
    ensures Run(t, [], [], fuel) == t && Outcomes(t, [], [], fuel) == [] && AllObserved(t, [], [], fuel)
  {
  }

  /** A run and one more operation. */
  lemma RunMore(t: Tls, ops: seq<P.Op>, slacks: seq<seq<nat>>, op: P.Op, s: seq<nat>, fuel: nat)
    requires |slacks| == |ops|
    ensures var z := Run(t, ops, slacks, fuel);
            && Run(t, ops + [op], slacks + [s], fuel) == Step(z, op, s, fuel).0
            && Outcomes(t, ops + [op], slacks + [s], fuel)
               == Outcomes(t, ops, slacks, fuel) + [Step(z, op, s, fuel).1]
            && (AllObserved(t, ops + [op], slacks + [s], fuel) <==>
                  AllObserved(t, ops, slacks, fuel) && Observed(z, op, s, fuel))
  {
    hide Step, Observed;
    var n := |ops|;
    assert (ops + [op])[..n] == ops && (slacks + [s])[..n] == slacks;
  }
}
