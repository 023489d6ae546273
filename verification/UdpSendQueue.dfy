/** The UDP send queues as implemented: a deque of packets and a socket. */
module UdpSendQueue {

  import opened Common
  import opened UdpModel
  import U = UdpModel

  class SendQueue<A> {
    var out: seq<Packet<A>>
    var socket: Option<Sock<A>>
    ghost var pushed: seq<Packet<A>>
    ghost var fates: seq<Fate<A>>
    ghost var carried: seq<Packet<A>>
    ghost var stops: nat

    ghost function Model(): Queue<A>
      reads this
    {
      Queue(out, socket, pushed, fates, carried, stops)
    }

    constructor ()
      ensures Model() == U.Empty<A>()
    {
      out, socket := [], None;
      pushed, fates, carried, stops := [], [], [], 0;
    }

    method Init(script: seq<Reply>)
      modifies this`socket, this`carried
      ensures Model() == U.Init(old(Model()), script)
    {
      carried := U.Wire(Model());
      socket := Some(Sock(script, []));
    }

    method Deinit()
      modifies this`socket, this`carried
      ensures Model() == U.Deinit(old(Model()))
    {
      carried := U.Wire(Model());
      socket := None;
    }

    method Push(addr: A, payload: seq<byte>)
      modifies this`out, this`pushed
      ensures Model() == U.Push(old(Model()), Packet(addr, payload))
    {
      out := out + [Packet(addr, payload)];
      pushed := pushed + [Packet(addr, payload)];
    }

    /** Sends packets until the queue is empty or one is not sent whole. */
    method Flush() returns (error: Option<Error>)
      modifies this`out, this`socket, this`fates, this`stops
      ensures (Model(), error) == U.Flush(old(Model()))
    {
      if socket.None? {
        return None;
      }
      while out != []
        invariant socket.Some?
        invariant U.Flush(Model()) == U.Flush(old(Model()))
        decreases |out|
      {
        var packet := out[0];
        out := out[1..];
        var s := socket.value;
        var (t, reply) := s.Send(packet);
        while reply.Interrupted?
          invariant U.SendLoop(s, packet) == if reply.Interrupted? then U.SendLoop(t, packet) else (t, reply)
          decreases reply.Interrupted?, |t.script|
        {
          var r := t.Send(packet);
          t, reply := r.0, r.1;
        }
        socket := Some(t);
        fates := fates + [Fate(packet, U.Whole(reply, packet))];
        match reply {
          case WouldBlock =>
            stops := stops + 1;
            return None;
          case Fault(code) =>
            stops := stops + 1;
            return Some(Other(code));
          case Done(len) =>
            if len != |packet.payload| {
              stops := stops + 1;
              return Some(WriteZero);
            }
        }
      }
      return None;
    }
  }

  /** On every run the implementation takes, sends and reports what the model does. */
  method RunSendQueue<A>(ops: seq<Op<A>>) returns (outs: seq<Option<Error>>, waiting: seq<Packet<A>>)
    ensures outs == U.Outcomes(U.Empty<A>(), ops)
    ensures waiting == U.Run(U.Empty<A>(), ops).out
  {
    var q := new SendQueue<A>();
    outs := [];
    var n := 0;
    while n < |ops|
      invariant n <= |ops| && fresh(q)
      invariant U.Run(q.Model(), ops[n..]) == U.Run(U.Empty<A>(), ops)
      invariant outs + U.Outcomes(q.Model(), ops[n..]) == U.Outcomes(U.Empty<A>(), ops)
    {
      assert ops[n..][0] == ops[n] && ops[n..][1..] == ops[n + 1..];
      var error: Option<Error> := None;
      match ops[n] {
        case OpPush(packet) => q.Push(packet.addr, packet.payload);
        case OpFlush => error := q.Flush();
        case OpInit(script) => q.Init(script);
        case OpDeinit => q.Deinit();
      }
      outs := outs + [error];
      n := n + 1;
    }
    waiting := q.out;
  }
}
