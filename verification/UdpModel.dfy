/**
 The send queues of the two UDP wrappers, as one model: a queued packet carries an address,
 which is of no interest when the socket is connected.

 The packet at the front is taken from the queue before it is sent, and it is not put back.
 A flush that stops early therefore loses exactly that packet.
 */
module UdpModel {

  import opened Common

  datatype Reply = Interrupted | WouldBlock | Fault(code: nat) | Done(count: nat)

  datatype Packet<A> = Packet(addr: A, payload: seq<byte>)

  /** A socket that answers as it likes and logs the packets it has taken whole. */
  datatype Sock<A> = Sock(script: seq<Reply>, wire: seq<Packet<A>>)
  {
    function Next(): Reply {
      if script == [] then WouldBlock else script[0]
    }

    function Send(packet: Packet<A>): (r: (Sock<A>, Reply))
      ensures r.1.Interrupted? ==> |r.0.script| < |script|
    {
      (this.(script := if script == [] then [] else script[1..],
             wire := if Whole(Next(), packet) then wire + [packet] else wire), Next())
    }
  }

  predicate Whole<A>(reply: Reply, packet: Packet<A>) {
    reply.Done? && reply.count == |packet.payload|
  }

  datatype Error = WriteZero | Other(code: nat)

  /** What became of a packet taken from the queue. */
  datatype Fate<A> = Fate(packet: Packet<A>, sent: bool)

  datatype Queue<A> = Queue(
    out: seq<Packet<A>>,
    socket: Option<Sock<A>>,
    // History
    pushed: seq<Packet<A>>,
    fates: seq<Fate<A>>,
    carried: seq<Packet<A>>,      // what earlier sockets took whole
    stops: nat)                   // flushes that stopped early

  function Empty<A>(): Queue<A> {
    Queue([], None, [], [], [], 0)
  }

  /** What the sockets have taken whole. */
  function Wire<A>(q: Queue<A>): seq<Packet<A>> {
    q.carried + if q.socket.Some? then q.socket.value.wire else []
  }

  function Push<A>(q: Queue<A>, packet: Packet<A>): Queue<A> {
    q.(out := q.out + [packet], pushed := q.pushed + [packet])
  }

  function Deinit<A>(q: Queue<A>): Queue<A> {
    q.(socket := None, carried := Wire(q))
  }

  function Init<A>(q: Queue<A>, script: seq<Reply>): Queue<A> {
    Deinit(q).(socket := Some(Sock(script, [])))
  }

  /** Sends one packet, trying again while it is interrupted. */
  function SendLoop<A>(s: Sock<A>, packet: Packet<A>): (r: (Sock<A>, Reply))
    ensures !r.1.Interrupted?
    decreases |s.script|
  {
    var (t, reply) := s.Send(packet);
    if reply.Interrupted? then SendLoop(t, packet) else (t, reply)
  }

  /** What a flush returns when it stops at this reply. */
  function ErrorOf(reply: Reply): Option<Error> {
    match reply
    case Done(_) => Some(WriteZero)
    case Fault(code) => Some(Other(code))
    case _ => None
  }

  function Flush<A>(q: Queue<A>): (Queue<A>, Option<Error>)
    decreases |q.out|
  {
    if q.socket.None? || q.out == [] then (q, None) else
      var packet := q.out[0];
      var (s, reply) := SendLoop(q.socket.value, packet);
      var r := q.(out := q.out[1..], socket := Some(s), fates := q.fates + [Fate(packet, Whole(reply, packet))]);
      if Whole(reply, packet) then Flush(r) else (r.(stops := r.stops + 1), ErrorOf(reply))
  }

  // ---------------------------------------------------------------- whole runs

  datatype Op<A> = OpPush(packet: Packet<A>) | OpFlush | OpInit(script: seq<Reply>) | OpDeinit

  function Step<A>(q: Queue<A>, op: Op<A>): (Queue<A>, Option<Error>) {
    match op
    case OpPush(packet) => (Push(q, packet), None)
    case OpFlush => Flush(q)
    case OpInit(script) => (Init(q, script), None)
    case OpDeinit => (Deinit(q), None)
  }

  function Run<A>(q: Queue<A>, ops: seq<Op<A>>): Queue<A>
    decreases ops
  {
    if ops == [] then q else Run(Step(q, ops[0]).0, ops[1..])
  }

  function Outcomes<A>(q: Queue<A>, ops: seq<Op<A>>): seq<Option<Error>>
    decreases ops
  {
    if ops == [] then [] else [Step(q, ops[0]).1] + Outcomes(Step(q, ops[0]).0, ops[1..])
  }

  function PacketsOf<A>(fates: seq<Fate<A>>): seq<Packet<A>> {
    seq(|fates|, i requires 0 <= i < |fates| => fates[i].packet)
  }

  function SentOf<A>(fates: seq<Fate<A>>): seq<Packet<A>> {
    if fates == [] then [] else
      var last := fates[|fates| - 1];
      SentOf(fates[..|fates| - 1]) + if last.sent then [last.packet] else []
  }

  /** The packets taken from the queue, and then those in it, are the ones pushed, in order; the
      sockets have taken exactly those marked as sent; and each early stop lost one. */
  ghost predicate Inv<A>(q: Queue<A>) {
    && q.pushed == PacketsOf(q.fates) + q.out
    && Wire(q) == SentOf(q.fates)
    && |q.fates| == |SentOf(q.fates)| + q.stops
  }

  lemma {:induction false} SendLoopLogs<A>(s: Sock<A>, packet: Packet<A>)
    ensures var (t, reply) := SendLoop(s, packet);
            t.wire == if Whole(reply, packet) then s.wire + [packet] else s.wire
    decreases |s.script|
  {
    var (t, reply) := s.Send(packet);
    if reply.Interrupted? {
      SendLoopLogs(t, packet);
    }
  }

  /** Taking the front packet and settling its fate. */
  lemma TakeFront<A>(q: Queue<A>, r: Queue<A>, sent: bool)
    requires Inv(q) && q.out != [] && q.socket.Some? && r.socket.Some?
    requires r == q.(out := q.out[1..], socket := r.socket, fates := q.fates + [Fate(q.out[0], sent)],
                     stops := if sent then q.stops else q.stops + 1)
    requires r.socket.value.wire == q.socket.value.wire + if sent then [q.out[0]] else []
    ensures Inv(r)
  {
    assert (q.fates + [Fate(q.out[0], sent)])[..|q.fates|] == q.fates;
    assert PacketsOf(r.fates) == PacketsOf(q.fates) + [q.out[0]];
    assert q.out == [q.out[0]] + q.out[1..];
    assert Wire(r) == Wire(q) + if sent then [q.out[0]] else [];
  }

  lemma {:induction false} FlushKeeps<A>(q: Queue<A>)
    requires Inv(q)
    ensures Inv(Flush(q).0)
    decreases |q.out|
  {
    if q.socket.Some? && q.out != [] {
      var packet := q.out[0];
      SendLoopLogs(q.socket.value, packet);
      var (s, reply) := SendLoop(q.socket.value, packet);
      var sent := Whole(reply, packet);
      assert q.socket.value.wire + [] == q.socket.value.wire;
      var r := q.(out := q.out[1..], socket := Some(s), fates := q.fates + [Fate(packet, sent)],
                  stops := if sent then q.stops else q.stops + 1);
      TakeFront(q, r, sent);
      if sent {
        FlushKeeps(r);
      }
    }
  }

  lemma StepKeeps<A>(q: Queue<A>, op: Op<A>)
    requires Inv(q)
    ensures Inv(Step(q, op).0)
  {
    match op
    case OpFlush => FlushKeeps(q);
    case OpPush(packet) => assert PacketsOf(q.fates) + q.out + [packet] == PacketsOf(q.fates) + (q.out + [packet]);
    case OpInit(script) => assert Wire(Init(q, script)) == Wire(q);
    case OpDeinit => assert Wire(Deinit(q)) == Wire(q);
  }

  lemma {:induction false} RunKeeps<A>(q: Queue<A>, ops: seq<Op<A>>)
    requires Inv(q)
    ensures Inv(Run(q, ops))
    decreases ops
  {
    if ops != [] {
      StepKeeps(q, ops[0]);
      RunKeeps(Step(q, ops[0]).0, ops[1..]);
    }
  }

  // ---------------------------------------------------------------- accounting

  /** `sub` can be read off `whole` at strictly increasing positions. */
  ghost predicate Subsequence<A>(sub: seq<Packet<A>>, whole: seq<Packet<A>>, at: seq<nat>) {
    && |at| == |sub|
    && (forall i :: 0 <= i < |at| ==> at[i] < |whole| && whole[at[i]] == sub[i])
    && (forall i, j :: 0 <= i < j < |at| ==> at[i] < at[j])
  }

  lemma {:induction false} SentPositions<A>(fates: seq<Fate<A>>) returns (at: seq<nat>)
    ensures Subsequence(SentOf(fates), PacketsOf(fates), at)
  {
    if fates == [] {
      at := [];
    } else {
      var n := |fates| - 1;
      at := SentPositions(fates[..n]);
      assert PacketsOf(fates) == PacketsOf(fates[..n]) + [fates[n].packet];
      if fates[n].sent {
        at := at + [n];
      }
    }
  }

  /** The packets that the operations push, with their addresses. */
  function PushedBy<A>(ops: seq<Op<A>>): seq<Packet<A>>
    decreases ops
  {
    if ops == [] then [] else (if ops[0].OpPush? then [ops[0].packet] else []) + PushedBy(ops[1..])
  }

  lemma StepPushes<A>(q: Queue<A>, op: Op<A>)
    ensures Step(q, op).0.pushed == q.pushed + if op.OpPush? then [op.packet] else []
  {
    hide Flush;
    FlushOnlyTakes(q);
    assert q.pushed + [] == q.pushed;
  }

  lemma {:induction false} RunPushes<A>(q: Queue<A>, ops: seq<Op<A>>)
    ensures Run(q, ops).pushed == q.pushed + PushedBy(ops)
    decreases ops
  {
    hide Step;
    if ops == [] {
      assert q.pushed + [] == q.pushed;
    } else {
      StepPushes(q, ops[0]);
      RunPushes(Step(q, ops[0]).0, ops[1..]);
      var head := if ops[0].OpPush? then [ops[0].packet] else [];
      assert PushedBy(ops) == head + PushedBy(ops[1..]);
      assert q.pushed + head + PushedBy(ops[1..]) == q.pushed + (head + PushedBy(ops[1..]));
    }
  }

  /** After every run the sockets have taken some of the packets pushed, each at most once and in
      order, with their addresses; those still queued are the last ones pushed; and what was pushed is
      what they took, what is still queued and one packet for every flush that stopped early. */
  lemma Accounting<A>(ops: seq<Op<A>>) returns (at: seq<nat>)
    ensures var q := Run(Empty<A>(), ops);
            && Subsequence(Wire(q), PushedBy(ops), at)
            && |PushedBy(ops)| == |Wire(q)| + |q.out| + q.stops
            && q.out == PushedBy(ops)[|PushedBy(ops)| - |q.out|..]
  {
    var q := Run(Empty<A>(), ops);
    RunKeeps(Empty<A>(), ops);
    RunPushes(Empty<A>(), ops);
    assert q.pushed == PushedBy(ops);
    at := SentPositions(q.fates);
  }

  lemma {:induction false} AllSent<A>(fates: seq<Fate<A>>)
    ensures |SentOf(fates)| <= |fates|
    ensures |SentOf(fates)| == |fates| ==> SentOf(fates) == PacketsOf(fates)
  {
    if fates != [] {
      AllSent(fates[..|fates| - 1]);
      assert PacketsOf(fates) == PacketsOf(fates[..|fates| - 1]) + [fates[|fates| - 1].packet];
    }
  }

  /** Delivery is lossless exactly when no flush has stopped early. */
  lemma LosslessWithoutStops<A>(q: Queue<A>)
    requires Inv(q)
    ensures q.pushed == Wire(q) + q.out <==> q.stops == 0
  {
    AllSent(q.fates);
    if q.stops > 0 {
      assert |q.pushed| != |Wire(q) + q.out|;
    }
  }

  // ---------------------------------------------------------------- when nothing is lost

  /** What is left of a script after the first answer that is not an interruption. */
  function AfterAnswer(script: seq<Reply>): (rest: seq<Reply>)
    ensures |rest| <= |script|
  {
    if script == [] then [] else if script[0].Interrupted? then AfterAnswer(script[1..]) else script[1..]
  }

  /** The first answer that is not an interruption. */
  function Answer(script: seq<Reply>): Reply {
    if script == [] then WouldBlock else if script[0].Interrupted? then Answer(script[1..]) else script[0]
  }

  /** The socket's answers, apart from interruptions, accept each packet in turn with its length. */
  predicate Takes<A>(script: seq<Reply>, out: seq<Packet<A>>)
    decreases |out|
  {
    out == [] || (Answer(script) == Done(|out[0].payload|) && Takes(AfterAnswer(script), out[1..]))
  }

  /** The script that a flush leaves when every packet is taken. */
  function AfterAll(script: seq<Reply>, n: nat): seq<Reply>
    decreases n
  {
    if n == 0 then script else AfterAll(AfterAnswer(script), n - 1)
  }

  lemma {:induction false} SendLoopAnswer<A>(s: Sock<A>, packet: Packet<A>)
    ensures var (t, reply) := SendLoop(s, packet);
            reply == Answer(s.script) && t.script == AfterAnswer(s.script)
    decreases |s.script|
  {
    var (t, reply) := s.Send(packet);
    if reply.Interrupted? {
      SendLoopAnswer(t, packet);
    }
  }

  /** A flush stops early exactly when some answer does not accept its packet; if none does not, it
      empties the queue. */
  lemma {:induction false} FlushTakes<A>(q: Queue<A>)
    ensures var r := Flush(q).0;
            && r.stops >= q.stops
            && (r.stops == q.stops <==> q.socket.None? || Takes(q.socket.value.script, q.out))
            && (r.socket.Some? <==> q.socket.Some?)
            && (q.socket.Some? && r.stops == q.stops ==>
                  r.out == [] && r.socket.value.script == AfterAll(q.socket.value.script, |q.out|))
            && (q.socket.None? ==> r == q)
    decreases |q.out|
  {
    if q.socket.Some? && q.out != [] {
      var packet := q.out[0];
      SendLoopAnswer(q.socket.value, packet);
      var (s, reply) := SendLoop(q.socket.value, packet);
      if Whole(reply, packet) {
        FlushTakes(q.(out := q.out[1..], socket := Some(s), fates := q.fates + [Fate(packet, true)]));
      }
    }
  }

  /** One flush loses nothing if and only if there is no socket or its answers take every packet. */
  lemma FlushLosesNothingIff<A>(q: Queue<A>)
    requires Inv(q)
    ensures var r := Flush(q).0;
            Wire(r) + r.out == Wire(q) + q.out <==> q.socket.None? || Takes(q.socket.value.script, q.out)
  {
    var r := Flush(q).0;
    FlushKeeps(q);
    FlushTakes(q);
    FlushOnlyTakes(q);
    if r.stops > q.stops {
      assert |Wire(r) + r.out| < |Wire(q) + q.out|;
    } else if q.socket.Some? {
      FlushSendsAll(q);
    }
  }

  lemma {:induction false} FlushOnlyTakes<A>(q: Queue<A>)
    ensures Flush(q).0.pushed == q.pushed
    decreases |q.out|
  {
    if q.socket.Some? && q.out != [] {
      var (s, reply) := SendLoop(q.socket.value, q.out[0]);
      if Whole(reply, q.out[0]) {
        FlushOnlyTakes(q.(out := q.out[1..], socket := Some(s), fates := q.fates + [Fate(q.out[0], true)]));
      }
    }
  }

  lemma {:induction false} FlushSendsAll<A>(q: Queue<A>)
    requires q.socket.Some? && Takes(q.socket.value.script, q.out)
    ensures Wire(Flush(q).0) == Wire(q) + q.out && Flush(q).0.out == []
    decreases |q.out|
  {
    if q.out == [] {
      assert Wire(q) + [] == Wire(q);
    } else {
      var packet := q.out[0];
      SendLoopAnswer(q.socket.value, packet);
      SendLoopLogs(q.socket.value, packet);
      var (s, reply) := SendLoop(q.socket.value, packet);
      var r := q.(out := q.out[1..], socket := Some(s), fates := q.fates + [Fate(packet, true)]);
      FlushSendsAll(r);
      assert Wire(r) + q.out[1..] == Wire(q) + ([packet] + q.out[1..]);
      assert [packet] + q.out[1..] == q.out;
    }
  }

  // ---------------------------------------------------------------- what a flush comes to

  /** How many of the packets are accepted in turn with their lengths. */
  function Leading<A>(script: seq<Reply>, out: seq<Packet<A>>): (n: nat)
    ensures n <= |out|
    decreases |out|
  {
    if out == [] || Answer(script) != Done(|out[0].payload|) then 0
    else 1 + Leading(AfterAnswer(script), out[1..])
  }

  /** What a flush of `q` comes to, its socket being there. */
  ghost predicate Flushed<A>(q: Queue<A>, r: Queue<A>, error: Option<Error>)
    requires q.socket.Some?
  {
    var n := Leading(q.socket.value.script, q.out);
    var answer := Answer(AfterAll(q.socket.value.script, n));
    && r.socket.Some? && Wire(r) == Wire(q) + q.out[..n]
    && if n == |q.out| then r.out == [] && error == None
       else
         && r.out == q.out[n + 1..]
         && (error == None <==> answer.WouldBlock?)
         && (forall code :: error == Some(Other(code)) <==> answer == Fault(code))
         && (error == Some(WriteZero) <==> answer.Done?)
  }

  /** One packet is sent, and then the flush of the others comes to `r`. */
  lemma FlushedOne<A>(q: Queue<A>, p: Queue<A>, r: Queue<A>, error: Option<Error>)
    requires q.socket.Some? && p.socket.Some? && q.out != []
    requires Answer(q.socket.value.script) == Done(|q.out[0].payload|)
    requires p.socket.value.script == AfterAnswer(q.socket.value.script) && p.out == q.out[1..]
    requires Wire(p) == Wire(q) + [q.out[0]]
    requires Flushed(p, r, error)
    ensures Flushed(q, r, error)
  {
    hide Wire, Answer, AfterAnswer;
    var n := Leading(p.socket.value.script, p.out);
    assert [q.out[0]] + q.out[1..][..n] == q.out[..n + 1];
    assert Wire(q) + [q.out[0]] + q.out[1..][..n] == Wire(q) + ([q.out[0]] + q.out[1..][..n]);
    assert n < |p.out| ==> p.out[n + 1..] == q.out[n + 2..];
  }

  /** What a flush does, for every socket, in terms of its answers: the packets that are accepted in turn
      have been sent, and the one after them has been taken from the queue too.  Its answer decides what
      is returned: an error of the socket, or that a packet was sent in part, or nothing if the socket
      would block. */
  lemma {:induction false} FlushAnswers<A>(q: Queue<A>)
    ensures var (r, error) := Flush(q);
            && Step(q, OpFlush) == (r, error)
            && if q.socket.None? then r == q && error == None else Flushed(q, r, error)
    decreases |q.out|
  {
    if q.socket.Some? && q.out != [] {
      var packet := q.out[0];
      SendLoopAnswer(q.socket.value, packet);
      SendLoopLogs(q.socket.value, packet);
      var (s, reply) := SendLoop(q.socket.value, packet);
      if Whole(reply, packet) {
        var p := q.(out := q.out[1..], socket := Some(s), fates := q.fates + [Fate(packet, true)]);
        FlushAnswers(p);
        assert Wire(p) == Wire(q) + [packet];
        FlushedOne(q, p, Flush(p).0, Flush(p).1);
      } else {
        assert Wire(q) + [] == Wire(q);
        assert Leading(q.socket.value.script, q.out) == 0;
      }
    } else {
      assert Wire(q) + [] == Wire(q);
    }
  }

  /** Over the packets pushed and the sockets' scripts alone: whenever the run flushes, the answers to
      come take everything that is waiting. */
  predicate AllTaken<A>(script: Option<seq<Reply>>, out: seq<Packet<A>>, ops: seq<Op<A>>)
    decreases |ops|
  {
    ops == [] ||
    match ops[0]
    case OpPush(packet) => AllTaken(script, out + [packet], ops[1..])
    case OpInit(script') => AllTaken(Some(script'), out, ops[1..])
    case OpDeinit => AllTaken(None, out, ops[1..])
    case OpFlush =>
      if script.None? then AllTaken(script, out, ops[1..])
      else Takes(script.value, out) && AllTaken(Some(AfterAll(script.value, |out|)), [], ops[1..])
  }

  function ScriptOf<A>(q: Queue<A>): Option<seq<Reply>> {
    if q.socket.Some? then Some(q.socket.value.script) else None
  }

  lemma {:induction false} RunStops<A>(q: Queue<A>, ops: seq<Op<A>>)
    ensures Run(q, ops).stops >= q.stops
    ensures Run(q, ops).stops == q.stops <==> AllTaken(ScriptOf(q), q.out, ops)
    decreases |ops|
  {
    if ops != [] {
      var r := Step(q, ops[0]).0;
      FlushTakes(q);
      RunStops(r, ops[1..]);
    }
  }

  /** A run loses no packet if and only if, whenever it flushes, the socket's answers take everything
      that is waiting: a condition on the packets and the answers, not on the outcome. */
  lemma LosslessIff<A>(ops: seq<Op<A>>)
    ensures var q := Run(Empty<A>(), ops);
            PushedBy(ops) == Wire(q) + q.out <==> AllTaken(None, [], ops)
  {
    var q := Run(Empty<A>(), ops);
    RunKeeps(Empty<A>(), ops);
    RunPushes(Empty<A>(), ops);
    assert q.pushed == PushedBy(ops);
    LosslessWithoutStops(q);
    RunStops(Empty<A>(), ops);
  }

  /** When the socket would block, the packet at the front is lost: it is neither sent nor put back,
      and the flush reports success. */
  lemma WouldBlockLosesPacket<A>(packet: Packet<A>)
    ensures var q := Run(Empty<A>(), [OpInit([WouldBlock]), OpPush(packet), OpFlush]);
            q.out == [] && Wire(q) == [] && PushedBy([OpInit([WouldBlock]), OpPush(packet), OpFlush]) == [packet]
    ensures Flush(Queue([packet], Some(Sock([WouldBlock], [])), [packet], [], [], 0)).1 == None
  {
    var q0 := Empty<A>();
    var q1 := Step(q0, OpInit([WouldBlock])).0;
    var q2 := Step(q1, OpPush(packet)).0;
    assert Run(q0, [OpInit([WouldBlock]), OpPush(packet), OpFlush])
        == Run(q1, [OpPush(packet), OpFlush])
        == Run(q2, [OpFlush])
        == Run(Flush(q2).0, []);
    assert PushedBy([OpInit([WouldBlock]), OpPush(packet), OpFlush]) == PushedBy([OpPush(packet), OpFlush])
        == [packet] + PushedBy([OpFlush]);
  }
}
