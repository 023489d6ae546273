/**
 A TLS engine that is free to answer as it likes.  Each call consumes one reply of a script, and
 logs record what the engine has been given, has produced and has reported.
 */
module Engine {

  import opened Common

  datatype TlsEof = Close | Abort

  datatype Fault = NoFault | WouldBlock | UnexpectedEof | OtherFault

  datatype Reply = Reply(yes: bool, count: nat, data: seq<byte>, fault: Fault)

  /** What the reader hands out for one call. */
  datatype Plain = Data(bytes: seq<byte>) | Empty | CutShort | Broken

  /** What the reader has given to understand about the end of the plaintext.  A read without room
      yields nothing too, whether or not plaintext is waiting. */
  datatype Signal = CleanEnd | UncleanEnd | NoRoom

  /** Answers by number.  Past the end of the script the answer is no, and nothing. */
  function Answer(script: seq<Reply>, i: nat): Reply {
    if i < |script| then script[i] else Reply(false, 0, [], NoFault)
  }

  function Later(script: seq<Reply>, n: nat): seq<Reply> {
    if n < |script| then script[n..] else []
  }

  datatype Engine = Engine(
    script: seq<Reply>,
    plainIn: seq<byte>,                 // plaintext accepted for sending
    tlsOut: seq<byte>,                  // protocol data produced
    tlsIn: seq<byte>,                   // protocol data taken in
    plainOut: seq<byte>,                // plaintext handed out
    notifications: nat,                 // close_notify alerts sent
    notifiedAt: Option<seq<byte>>,      // the protocol data produced by the first of them
    afterWrite: bool,                   // the last call made protocol data be written
    finishes: nat,                      // times that, after close_notify, a write left nothing to write
    finishedAt: Option<seq<byte>>,      // the protocol data produced by the first of them
    wantsWrite: bool,                   // the last answer to whether there is data to write
    wantsRead: bool,                    // the last answer to whether data is wanted
    shownEnd: bool,                     // it was shown the end of the protocol data
    announcements: nat,                 // times it announced plaintext to be read
    signals: seq<Signal>)
  {
    function Next(): Reply {
      Answer(script, 0)
    }

    function Rest(): Engine {
      this.(script := Later(script, 1), afterWrite := false)
    }

    /** The answer is only partly used up: `rest` of its data is held for the next call. */
    function Hold(rest: seq<byte>): Engine {
      this.(script := [Next().(data := rest)] + Rest().script, afterWrite := false)
    }

    function WantsWrite(): (Engine, bool) {
      var finished := notifications > 0 && afterWrite && !Next().yes;
      (Rest().(wantsWrite := Next().yes,
               finishes := if finished then finishes + 1 else finishes,
               finishedAt := if finished && finishedAt.None? then Some(tlsOut) else finishedAt),
       Next().yes)
    }

    /** Produces protocol data, or fails. */
    function WriteTls(): (Engine, Option<seq<byte>>) {
      if Next().fault != NoFault then (Rest(), None) else
        (Rest().(tlsOut := tlsOut + Next().data, afterWrite := true), Some(Next().data))
    }

    /** Accepts the first bytes of `buf` for sending, or fails. */
    function WritePlain(buf: seq<byte>): (r: (Engine, Option<nat>))
      ensures r.1.Some? ==> r.1.value <= |buf| && r.0.plainIn == plainIn + buf[..r.1.value]
    {
      if Next().fault != NoFault then (Rest(), None) else
        var n := if Next().count < |buf| then Next().count else |buf|;
        (Rest().(plainIn := plainIn + buf[..n]), Some(n))
    }

    function SendCloseNotify(): Engine {
      Rest().(notifications := notifications + 1,
              notifiedAt := if notifiedAt.None? then Some(tlsOut) else notifiedAt)
    }

    function WantsRead(): (Engine, bool) {
      (Rest().(wantsRead := Next().yes), Next().yes)
    }

    /** The room the engine offers for protocol data, or a failure. */
    function ReadRoom(): (r: (Engine, Option<nat>))
      ensures r.1.Some? ==> r.1.value > 0
    {
      (Rest(), if Next().fault != NoFault then None else Some(Next().count + 1))
    }

    /** Takes in what was read; nothing read is the end. */
    function TakeTls(data: seq<byte>): Engine {
      this.(tlsIn := tlsIn + data, shownEnd := shownEnd || data == [])
    }

    /** Processes what was taken in: how much plaintext is waiting, or a failure. */
    function ProcessNewPackets(): (Engine, Option<nat>) {
      if Next().fault != NoFault then (Rest(), None) else
        (Rest().(announcements := if Next().count > 0 then announcements + 1 else announcements), Some(Next().count))
    }

    /** Reads at most `room` bytes of plaintext; what does not fit is held for the next read. */
    function ReadPlain(room: nat): (r: (Engine, Plain))
      ensures r.1.Data? ==> |r.1.bytes| <= room && r.0.plainOut == plainOut + r.1.bytes
    {
      match Next().fault
      case WouldBlock => (Rest(), Empty)
      case UnexpectedEof => (Rest().(signals := signals + [UncleanEnd]), CutShort)
      case OtherFault => (Rest(), Broken)
      case NoFault =>
        var d := Next().data;
        var n := if |d| < room then |d| else room;
        var e := if n == |d| then Rest() else Hold(d[n..]);
        (e.(plainOut := plainOut + d[..n],
            signals := if n > 0 then signals else signals + [if room == 0 then NoRoom else CleanEnd]),
         Data(d[..n]))
    }
  }

  function New(script: seq<Reply>): Engine {
    Engine(script, [], [], [], [], 0, None, false, 0, None, false, false, false, 0, [])
  }
}
