/**
 The connection object (native/display-helper/Connection.swift): both buffers and both sources, its loops
 proved against the receiving and the sending half.
 */
module ConnectionObject {
  import opened Outcomes
  import opened LineFraming
  import opened SendBuffer
  import opened Duplex

  /** What one read of the socket returns. */
  datatype Read = Bytes(chunk: seq<Byte>) | EndOfStream | NotNow | Broken

  /** `reason`, `dispatched`, `sent`, `accepted`, `calls` and `closings` are the log. */
  class HelperConnection {
    var incoming: seq<Byte>
    var outgoing: seq<Byte>
    var reader: bool
    var writer: bool
    var closed: bool
    var reason: Status
    var dispatched: seq<Line>
    var sent: seq<Byte>
    var accepted: seq<Line>
    var calls: nat
    var closings: nat

    constructor ()
      ensures Valid() && Receiving() == EMPTY && Sending() == UNSENT
    {
      incoming, outgoing, dispatched, sent, accepted := [], [], [], [], [];
      reader, writer, closed, reason, calls, closings := true, false, false, Open, 0, 0;
    }

    /** A closed connection holds no bytes and no sources, and told its owner exactly once. */
    ghost predicate Valid()
      reads this
    {
      && (closed <==> reason != Open)
      && (reader <==> !closed)
      && (closed ==> incoming == [] && outgoing == [] && !writer)
      && closings == (if closed then 1 else 0)
      && Faithful(Sending())
    }

    function Receiving(): Receiver
      reads this
    {
      Receiver(incoming, dispatched, reason)
    }

    function Sending(): Sender
      reads this
    {
      Sender(outgoing, sent, accepted, !closed, writer, calls)
    }

    method Shut(why: Status)
      requires Valid() && why != Open
      modifies this
      ensures Valid() && closed
      ensures Sending() == Hang(old(Sending()))
      ensures Receiving() == Receiver([], old(dispatched), if old(closed) then old(reason) else why)
    {
      if closed {
        return;
      }
      hide Faithful;
      HangFaithful(Sending());
      closed, reason := true, why;
      reader, writer := false, false;
      incoming, outgoing := [], [];
      closings := closings + 1;
    }

    function Both(): Channel
      reads this
    {
      Channel(Receiving(), Sending())
    }

    /** One read of the socket, with everything the handler does about the requests it completes. */
    method Receive(read: Read, server: Server, kernel: Kernel)
      requires Valid()
      modifies this
      ensures Valid()
      ensures read.Bytes? ==> Both() == Feed(old(Both()), read.chunk, server, kernel)
      ensures read.NotNow? ==> Both() == old(Both())
      ensures read.EndOfStream? || read.Broken? ==>
                Both() == if old(closed) then old(Both()) else Ended(old(Both()), Hung)
    {
      hide Serve, Faithful;
      if closed {
        return;
      }
      match read {
        case NotNow => return;
        case EndOfStream => Shut(Hung);
        case Broken => Shut(Hung);
        case Bytes(chunk) =>
          if |incoming| + |chunk| > MAX_INCOMING {
            Shut(TooLong);
            return;
          }
          incoming := incoming + chunk;
          DispatchLines(server, kernel);
      }
    }

    method DispatchLines(server: Server, kernel: Kernel)
      requires Valid() && !closed
      modifies this
      ensures Valid()
      ensures Both() == Serve(old(Both()), server, kernel)
    {
      hide Answer, Faithful;
      while !closed && NEWLINE in incoming
        invariant Valid()
        invariant Serve(Both(), server, kernel) == Serve(old(Both()), server, kernel)
        decreases !closed, |incoming|
      {
        var newline := FirstNewline(incoming);
        var line := incoming[..newline];
        if !server.parses(line) {
          Shut(Unparsed);
        } else {
          HandleLine(line, incoming[newline + 1..], server, kernel);
        }
      }
    }

    /** Takes the line out of the buffer, hands it to the handler and lets it reply. */
    method HandleLine(line: Line, rest: seq<Byte>, server: Server, kernel: Kernel)
      requires Valid() && !closed && |rest| < |incoming|
      modifies this
      ensures Valid() && Both() == Answer(old(Both()), line, rest, server, kernel)
      ensures closed || |incoming| < old(|incoming|)
    {
      hide SendEach, Faithful;
      incoming := rest;
      dispatched := dispatched + [line];
      Reply(server.replies(|dispatched|), kernel);
      if !closed && !server.keeps(|dispatched|) {
        Shut(Hung);
      }
    }

    method Reply(frames: seq<Option<Line>>, kernel: Kernel)
      requires Valid() && !closed
      modifies this
      ensures Valid() && Sending() == SendEach(old(Sending()), frames, kernel)
      ensures Receiving() == if closed then Receiver([], old(dispatched), Hung) else old(Receiving())
    {
      hide SendFrame, Faithful;
      for i := 0 to |frames|
        invariant Valid() && Sending() == SendEach(old(Sending()), frames[..i], kernel)
        invariant Receiving() == if closed then Receiver([], old(dispatched), Hung) else old(Receiving())
      {
        assert frames[..i + 1][..i] == frames[..i];
        SendValue(frames[i], kernel);
      }
      assert frames[..|frames|] == frames;
    }

    method SendValue(frame: Option<Line>, kernel: Kernel)
      requires Valid()
      modifies this
      ensures Valid()
      ensures Sending() == SendFrame(old(Sending()), frame, kernel)
      ensures Receiving() == if closed && !old(closed) then Receiver([], old(dispatched), Hung) else old(Receiving())
    {
      if closed || frame.None? || |frame.value| > MAX_FRAME || |outgoing| + |frame.value| + 1 > MAX_OUTGOING {
        Shut(Hung);
        return;
      }
      AppendFaithful(Sending(), frame.value);
      outgoing := outgoing + frame.value + [NEWLINE];
      accepted := accepted + [frame.value];
      FlushOutgoing(kernel);
    }

    method RemoveFirst(n: nat)
      requires Valid() && !closed && n <= |outgoing|
      modifies this`sent, this`outgoing, this`calls
      ensures Valid() && Sending() == Write(old(Sending()), n)
    {
      WriteFaithful(Sending(), n);
      sent, outgoing, calls := sent + outgoing[..n], outgoing[n..], calls + 1;
    }

    method FlushOutgoing(kernel: Kernel)
      requires Valid()
      modifies this
      ensures Valid()
      ensures Sending() == Flush(old(Sending()), kernel)
      ensures Receiving() == if closed && !old(closed) then Receiver([], old(dispatched), Hung) else old(Receiving())
    {
      if closed {
        return;
      }
      hide Faithful;
      while outgoing != []
        invariant Valid() && !closed
        invariant Flush(Sending(), kernel) == Flush(old(Sending()), kernel)
        invariant Receiving() == old(Receiving())
        decreases |outgoing|
      {
        var reply := kernel(calls);
        if reply.WouldBlock? {
          writer, calls := true, calls + 1;
          return;
        }
        if reply.Failed? || Taken(reply.count, |outgoing|) == 0 {
          Shut(Hung);
          return;
        }
        var n := Taken(reply.count, |outgoing|);
        RemoveFirst(n);
      }
      writer := false;
    }
  }
}
