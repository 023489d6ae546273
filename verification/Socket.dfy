/**
 A non-blocking stream socket that is free to answer as it likes.

 Each system call consumes one reply of a finite script: it may be interrupted, may have to
 wait, may fail, or may succeed in part.  When the script has run out every call reports that
 it would block.  Logs record what the socket has really taken, delivered and been told.
 */
module Socket {

  import opened Common

  datatype Reply =
    | Interrupted
    | WouldBlock
    | Fault(code: nat)
    | Done(count: nat, data: seq<byte>)

  datatype IoError = WouldBlockError | Other(code: nat)

  datatype Io<+T> = Ok(value: T) | Again | Blocked | Failed(code: nat)

  datatype Sock = Sock(
    script: seq<Reply>,
    accepted: seq<byte>,          // bytes taken from write calls
    delivered: seq<byte>,         // bytes handed out by read calls
    ended: bool,                  // a read call reported the end of the stream
    nodelay: Option<bool>,        // the TCP_NODELAY setting last applied
    shutdowns: nat)               // write shutdowns carried out
  {
    function Next(): Reply {
      if script == [] then WouldBlock else script[0]
    }

    function Rest(): (s: Sock)
      ensures Next().Interrupted? ==> |s.script| < |script|
    {
      this.(script := if script == [] then [] else script[1..])
    }

    function Write(buf: seq<byte>): (r: (Sock, Io<nat>))
      ensures r.1.Ok? ==> r.1.value <= |buf| && r.0.accepted == accepted + buf[..r.1.value]
      ensures !r.1.Ok? ==> r.0.accepted == accepted
      ensures r.1.Again? ==> |r.0.script| < |script|
    {
      match Next()
      case Interrupted => (Rest(), Again)
      case WouldBlock => (Rest(), Blocked)
      case Fault(code) => (Rest(), Failed(code))
      case Done(count, _) =>
        var n := if count < |buf| then count else |buf|;
        (Rest().(accepted := accepted + buf[..n]), Ok(n))
    }

    /** Reads at most `max` bytes.  Nothing read means the end, or that there was no room. */
    function Read(max: nat): (r: (Sock, Io<seq<byte>>))
      ensures r.1.Ok? ==> |r.1.value| <= max && r.0.delivered == delivered + r.1.value
      ensures !r.1.Ok? ==> r.0.delivered == delivered
      ensures r.1.Again? ==> |r.0.script| < |script|
    {
      match Next()
      case Interrupted => (Rest(), Again)
      case WouldBlock => (Rest(), Blocked)
      case Fault(code) => (Rest(), Failed(code))
      case Done(_, data) =>
        var got := if |data| < max then data else data[..max];
        (Rest().(delivered := delivered + got, ended := ended || data == []), Ok(got))
    }

    function SetNodelay(flag: bool): (r: (Sock, Io<()>))
      ensures r.1.Again? ==> |r.0.script| < |script|
    {
      match Next()
      case Interrupted => (Rest(), Again)
      case WouldBlock => (Rest(), Blocked)
      case Fault(code) => (Rest(), Failed(code))
      case Done(_, _) => (Rest().(nodelay := Some(flag)), Ok(()))
    }

    function Flush(): (r: (Sock, Io<()>))
      ensures r.1.Again? ==> |r.0.script| < |script|
    {
      match Next()
      case Interrupted => (Rest(), Again)
      case WouldBlock => (Rest(), Blocked)
      case Fault(code) => (Rest(), Failed(code))
      case Done(_, _) => (Rest(), Ok(()))
    }

    function ShutdownWrite(): (r: (Sock, Io<()>))
      ensures r.1.Again? ==> |r.0.script| < |script|
    {
      match Next()
      case Interrupted => (Rest(), Again)
      case WouldBlock => (Rest(), Blocked)
      case Fault(code) => (Rest(), Failed(code))
      case Done(_, _) => (Rest().(shutdowns := shutdowns + 1), Ok(()))
    }
  }

  /** A stream just handed over: its logs start here. */
  function Attach(script: seq<Reply>): Sock {
    Sock(script, [], [], false, None, 0)
  }
}
