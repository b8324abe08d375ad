/**
 Both halves of a connection together (native/display-helper/Connection.swift): the handler answers on
 the connection it is reading from, so a reply that cannot be sent ends the loop that dispatches requests.
 */
module Duplex {
  import opened Outcomes
  import opened LineFraming
  import opened SendBuffer

  datatype Channel = Channel(receiver: Receiver, sender: Sender)

  /** Which lines are requests, what the handler sends after the n-th, and whether it then keeps the connection. */
  datatype Server = Server(parses: Line -> bool, replies: nat -> seq<Option<Line>>, keeps: nat -> bool)

  const CONNECTED := Channel(EMPTY, UNSENT)

  function SendEach(s: Sender, frames: seq<Option<Line>>, kernel: Kernel): Sender {
    if frames == [] then s
    else SendFrame(SendEach(s, frames[..|frames| - 1], kernel), frames[|frames| - 1], kernel)
  }

  function Ended(c: Channel, why: Status): Channel {
    Channel(Receiver([], c.receiver.dispatched, why), Hang(c.sender))
  }

  /** One request handed to the handler, with what follows it in the buffer. */
  function Answer(c: Channel, line: Line, rest: seq<Byte>, server: Server, kernel: Kernel): Channel {
    var dispatched := c.receiver.dispatched + [line];
    var next := Channel(Receiver(rest, dispatched, Open), SendEach(c.sender, server.replies(|dispatched|), kernel));
    if next.sender.open && server.keeps(|dispatched|) then next else Ended(next, Hung)
  }

  function Serve(c: Channel, server: Server, kernel: Kernel): Channel
    decreases |c.receiver.incoming|
  {
    if c.receiver.status != Open || NEWLINE !in c.receiver.incoming then c
    else
      var i := FirstNewline(c.receiver.incoming);
      var line, rest := c.receiver.incoming[..i], c.receiver.incoming[i + 1..];
      if !server.parses(line) then Ended(c, Unparsed)
      else
        var next := Answer(c, line, rest, server, kernel);
        if next.receiver.status == Open then Serve(next, server, kernel) else next
  }

  function Feed(c: Channel, chunk: seq<Byte>, server: Server, kernel: Kernel): Channel {
    if c.receiver.status != Open then c
    else if |c.receiver.incoming| + |chunk| > MAX_INCOMING then Ended(c, TooLong)
    else Serve(c.(receiver := c.receiver.(incoming := c.receiver.incoming + chunk)), server, kernel)
  }

  function OperateOn(c: Channel, op: Operation, kernel: Kernel): Channel {
    var next := c.(sender := Operate(c.sender, op, kernel));
    if next.sender.open || c.receiver.status != Open then next else Ended(next, Hung)
  }

  // ----- Runs -----

  /** A read that returned bytes, or anything the rest of the helper does with the connection. */
  datatype Happening = Arrives(chunk: seq<Byte>) | Done(op: Operation)

  function Run(events: seq<Happening>, server: Server, kernel: Kernel): Channel {
    if events == [] then CONNECTED
    else
      var c := Run(events[..|events| - 1], server, kernel);
      match events[|events| - 1]
      case Arrives(chunk) => Feed(c, chunk, server, kernel)
      case Done(op) => OperateOn(c, op, kernel)
  }

  function Stream(events: seq<Happening>): seq<Byte> {
    if events == [] then []
    else Stream(events[..|events| - 1]) + if events[|events| - 1].Arrives? then events[|events| - 1].chunk else []
  }

  /** Both halves are open or closed together, and the sending one keeps its promises. */
  predicate Joined(c: Channel) {
    && (c.receiver.status == Open <==> c.sender.open)
    && (c.receiver.status != Open ==> c.receiver.incoming == [])
    && Faithful(c.sender) && AtRest(c.sender)
  }

  lemma EndedJoined(c: Channel, why: Status)
    requires Faithful(c.sender) && why != Open
    ensures Joined(Ended(c, why))
  {
    HangFaithful(c.sender);
  }

  lemma {:induction false} SendEachFaithful(s: Sender, frames: seq<Option<Line>>, kernel: Kernel)
    requires Faithful(s) && AtRest(s)
    ensures Faithful(SendEach(s, frames, kernel)) && AtRest(SendEach(s, frames, kernel))
  {
    hide SendFrame, Faithful;
    if frames != [] {
      SendEachFaithful(s, frames[..|frames| - 1], kernel);
      SendFaithful(SendEach(s, frames[..|frames| - 1], kernel), frames[|frames| - 1], kernel);
    }
  }

  lemma AnswerJoined(c: Channel, line: Line, rest: seq<Byte>, server: Server, kernel: Kernel)
    requires Joined(c)
    ensures Joined(Answer(c, line, rest, server, kernel))
  {
    hide SendEach, Faithful;
    var dispatched := c.receiver.dispatched + [line];
    SendEachFaithful(c.sender, server.replies(|dispatched|), kernel);
    EndedJoined(Channel(Receiver(rest, dispatched, Open), SendEach(c.sender, server.replies(|dispatched|), kernel)), Hung);
  }

  /** Serving dispatches the lines of the buffer in order, all of them while the connection stays open. */
  ghost predicate Serves(c: Channel, d: Channel) {
    var p := Split(c.receiver.incoming);
    && d.receiver.dispatched <= c.receiver.dispatched + p.lines
    && (d.receiver.status == Open ==> d.receiver.dispatched == c.receiver.dispatched + p.lines && d.receiver.incoming == p.residue)
  }

  lemma ServesAfter(c: Channel, line: Line, rest: seq<Byte>, d: Channel)
    requires NEWLINE !in line && c.receiver.incoming == line + [NEWLINE] + rest
    requires Serves(Channel(Receiver(rest, c.receiver.dispatched + [line], Open), c.sender), d)
    ensures Serves(c, d)
  {
    SplitFirst(line, rest);
    assert c.receiver.dispatched + [line] + Split(rest).lines == c.receiver.dispatched + ([line] + Split(rest).lines);
  }

  lemma {:induction false} ServeKeeps(c: Channel, server: Server, kernel: Kernel)
    requires Joined(c) && c.receiver.status == Open
    ensures Joined(Serve(c, server, kernel)) && Serves(c, Serve(c, server, kernel))
    decreases |c.receiver.incoming|
  {
    hide Answer, Joined, Split;
    var s := c.receiver.incoming;
    if NEWLINE !in s {
      SplitPlain(s);
      assert c.receiver.dispatched + [] == c.receiver.dispatched;
    } else {
      var i := FirstNewline(s);
      var line, rest := s[..i], s[i + 1..];
      assert s == line + [NEWLINE] + rest;
      EndedJoined(c, Unparsed) by { JoinedParts(c); }
      var next := Answer(c, line, rest, server, kernel);
      AnswerJoined(c, line, rest, server, kernel);
      AnswerShape(c, line, rest, server, kernel);
      if server.parses(line) {
        if next.receiver.status == Open { ServeKeeps(next, server, kernel); }
        var d := Serve(c, server, kernel);
        assert Serves(Channel(Receiver(rest, c.receiver.dispatched + [line], Open), c.sender), d) by {
          if next.receiver.status != Open { assert c.receiver.dispatched + [line] <= c.receiver.dispatched + [line] + Split(rest).lines; }
        }
        ServesAfter(c, line, rest, d);
      }
    }
  }

  lemma JoinedParts(c: Channel)
    requires Joined(c)
    ensures Faithful(c.sender)
  {
  }

  lemma AnswerShape(c: Channel, line: Line, rest: seq<Byte>, server: Server, kernel: Kernel)
    ensures var next := Answer(c, line, rest, server, kernel).receiver;
            && next.dispatched == c.receiver.dispatched + [line]
            && (next.status == Open ==> next.incoming == rest)
  {
  }

  lemma FeedKeeps(c: Channel, chunk: seq<Byte>, server: Server, kernel: Kernel)
    requires Joined(c)
    ensures Joined(Feed(c, chunk, server, kernel))
    ensures c.receiver.status == Open ==>
              Serves(c.(receiver := c.receiver.(incoming := c.receiver.incoming + chunk)), Feed(c, chunk, server, kernel))
  {
    hide Serve, Split;
    if c.receiver.status == Open {
      var more := c.(receiver := c.receiver.(incoming := c.receiver.incoming + chunk));
      if |more.receiver.incoming| > MAX_INCOMING {
        EndedJoined(c, TooLong);
      } else {
        ServeKeeps(more, server, kernel);
      }
    }
  }

  lemma OperateKeeps(c: Channel, op: Operation, kernel: Kernel)
    requires Joined(c)
    ensures var d := OperateOn(c, op, kernel);
            && Joined(d) && d.receiver.dispatched == c.receiver.dispatched
            && (d.receiver.status == Open ==> d.receiver == c.receiver)
  {
    hide Operate, Faithful;
    OperateFaithful(c.sender, op, kernel);
    EndedJoined(c.(sender := Operate(c.sender, op, kernel)), Hung);
  }

  /**
   Over any run that mixes reads, requests answered from inside the reading loop, frames sent by captures,
   readiness events and closes: the requests dispatched are a prefix of the lines of the peer's stream, all of
   them while the connection is open, and what was accepted for sending is sent in order.
   */
  lemma {:induction false} DuplexKeeps(events: seq<Happening>, server: Server, kernel: Kernel)
    ensures var c, p := Run(events, server, kernel), Split(Stream(events));
            && Joined(c) && c.receiver.dispatched <= p.lines
            && (c.receiver.status == Open ==> c.receiver.dispatched == p.lines && c.receiver.incoming == p.residue)
  {
    hide Joined, Feed, OperateOn, Split;
    if events == [] {
      ConnectedJoined();
    } else {
      var front := events[..|events| - 1];
      DuplexKeeps(front, server, kernel);
      var c := Run(front, server, kernel);
      match events[|events| - 1]
      case Arrives(chunk) =>
        SplitResumes(Stream(front), chunk);
        FeedKeeps(c, chunk, server, kernel);
        FeedClosed(c, chunk, server, kernel);
      case Done(op) =>
        assert Stream(events) == Stream(front);
        OperateKeeps(c, op, kernel);
    }
  }

  lemma ConnectedJoined()
    ensures Joined(CONNECTED) && Split([]) == Parts([], [])
  {
  }

  lemma FeedClosed(c: Channel, chunk: seq<Byte>, server: Server, kernel: Kernel)
    ensures c.receiver.status != Open ==> Feed(c, chunk, server, kernel) == c
  {
  }

  // ----- Replies -----

  function Present(frames: seq<Option<Line>>): seq<Line> {
    if frames == [] then []
    else Present(frames[..|frames| - 1]) + if frames[|frames| - 1].Some? then [frames[|frames| - 1].value] else []
  }

  /** Everything the handler sends for the first `count` requests. */
  function AllReplies(server: Server, count: nat): seq<Line> {
    if count == 0 then [] else AllReplies(server, count - 1) + Present(server.replies(count))
  }

  lemma {:induction false} SendEachAccepts(s: Sender, frames: seq<Option<Line>>, kernel: Kernel)
    requires Faithful(s) && AtRest(s)
    ensures SendEach(s, frames, kernel).open ==> s.open && SendEach(s, frames, kernel).accepted == s.accepted + Present(frames)
  {
    hide Faithful, Flush;
    if frames == [] {
      assert s.accepted + [] == s.accepted;
    } else {
      var front, last := frames[..|frames| - 1], frames[|frames| - 1];
      SendEachAccepts(s, front, kernel);
      SendEachFaithful(s, front, kernel);
      var t := SendEach(s, front, kernel);
      SendFaithful(t, last, kernel);
      if SendFrame(t, last, kernel).open {
        AppendFaithful(t, last.value);
        FlushFaithful(Append(t, last.value), kernel);
        assert s.accepted + Present(front) + [last.value] == s.accepted + (Present(front) + [last.value]);
      }
    }
  }

  /** What was accepted is the replies to the requests dispatched so far. */
  predicate Answered(c: Channel, server: Server) {
    c.receiver.status == Open ==> c.sender.accepted == AllReplies(server, |c.receiver.dispatched|)
  }

  lemma AnswerAnswered(c: Channel, line: Line, rest: seq<Byte>, server: Server, kernel: Kernel)
    requires Joined(c) && c.receiver.status == Open && Answered(c, server)
    ensures Answered(Answer(c, line, rest, server, kernel), server)
  {
    hide SendEach, Faithful;
    SendEachAccepts(c.sender, server.replies(|c.receiver.dispatched| + 1), kernel);
  }

  lemma {:induction false} ServeAnswered(c: Channel, server: Server, kernel: Kernel)
    requires Joined(c) && c.receiver.status == Open && Answered(c, server)
    ensures Answered(Serve(c, server, kernel), server)
    decreases |c.receiver.incoming|
  {
    hide Answer, Joined;
    if NEWLINE in c.receiver.incoming {
      var i := FirstNewline(c.receiver.incoming);
      var line, rest := c.receiver.incoming[..i], c.receiver.incoming[i + 1..];
      AnswerShape(c, line, rest, server, kernel);
      AnswerJoined(c, line, rest, server, kernel);
      AnswerAnswered(c, line, rest, server, kernel);
      var next := Answer(c, line, rest, server, kernel);
      if server.parses(line) && next.receiver.status == Open { ServeAnswered(next, server, kernel); }
    }
  }

  predicate OnlyReads(events: seq<Happening>) {
    forall k :: 0 <= k < |events| ==> events[k].Arrives? || events[k].op.Writable?
  }

  /** While nothing but the handler sends, an open connection has accepted the replies to its requests, in order. */
  lemma {:induction false} RepliesInOrder(events: seq<Happening>, server: Server, kernel: Kernel)
    requires OnlyReads(events)
    ensures Answered(Run(events, server, kernel), server)
  {
    hide Joined, Serve, Faithful, Flush, Split;
    if events != [] {
      var front := events[..|events| - 1];
      RepliesInOrder(front, server, kernel);
      DuplexKeeps(front, server, kernel);
      var c := Run(front, server, kernel);
      match events[|events| - 1]
      case Arrives(chunk) =>
        if c.receiver.status == Open && |c.receiver.incoming| + |chunk| <= MAX_INCOMING {
          var more := c.(receiver := c.receiver.(incoming := c.receiver.incoming + chunk));
          MoreJoined(c, chunk);
          ServeAnswered(more, server, kernel);
        }
      case Done(op) =>
        assert op.Writable?;
        JoinedParts(c);
        FlushFaithful(c.sender, kernel);
    }
  }

  lemma MoreJoined(c: Channel, chunk: seq<Byte>)
    requires Joined(c) && c.receiver.status == Open
    ensures Joined(c.(receiver := c.receiver.(incoming := c.receiver.incoming + chunk)))
  {
  }

  // ----- A good peer is kept -----

  /** Replies the connection can take, whatever was sent before, while all of them together fit the buffer. */
  ghost predicate Presentable(server: Server) {
    forall n, k :: 0 <= k < |server.replies(n)| ==> server.replies(n)[k].Some?
  }

  lemma {:induction false} JoinLength(a: seq<Line>, b: seq<Line>)
    requires a <= b
    ensures |Join(a)| <= |Join(b)|
    decreases |b|
  {
    if |a| < |b| { JoinLength(a, b[..|b| - 1]); } else { assert a == b; }
  }

  lemma FitsFrame(all: seq<Line>, a: seq<Line>, frame: Line)
    requires Sendable(all) && a + [frame] <= all
    ensures |frame| <= MAX_FRAME && |Join(a)| + |frame| + 1 <= MAX_OUTGOING
  {
    JoinLength(a + [frame], all);
    JoinAppends(a, frame);
    assert all[|a|] == (a + [frame])[|a|] == frame;
  }

  /** As long as the accepted frames stay first ones of a list that fits, a healthy connection takes the next. */
  lemma FrameTaken(s: Sender, frame: Line, kernel: Kernel, all: seq<Line>)
    requires s.open && Faithful(s) && AtRest(s) && Healthy(kernel, 0) && Sendable(all) && s.accepted + [frame] <= all
    ensures var t := SendFrame(s, Some(frame), kernel);
            t.open && Faithful(t) && AtRest(t) && t.accepted == s.accepted + [frame]
  {
    hide Flush;
    FitsFrame(all, s.accepted, frame);
    assert |s.outgoing| <= |Join(s.accepted)|;
    SendExact(s, Some(frame), kernel);
    SendFaithful(s, Some(frame), kernel);
  }

  lemma {:induction false} EachTaken(s: Sender, frames: seq<Option<Line>>, kernel: Kernel, all: seq<Line>)
    requires s.open && Faithful(s) && AtRest(s) && Healthy(kernel, 0) && Sendable(all)
    requires (forall k :: 0 <= k < |frames| ==> frames[k].Some?) && s.accepted + Present(frames) <= all
    ensures var t := SendEach(s, frames, kernel);
            t.open && Faithful(t) && AtRest(t) && t.accepted == s.accepted + Present(frames)
  {
    hide SendFrame, Faithful, AtRest, Healthy, Sendable;
    if frames == [] {
      assert s.accepted + [] == s.accepted;
    } else {
      var front, last := frames[..|frames| - 1], frames[|frames| - 1];
      assert s.accepted + Present(front) + [last.value] == s.accepted + Present(frames);
      assert s.accepted + Present(front) <= s.accepted + Present(frames);
      EachTaken(s, front, kernel, all);
      FrameTaken(SendEach(s, front, kernel), last.value, kernel, all);
    }
  }

  lemma {:induction false} RepliesPrefix(server: Server, a: nat, b: nat)
    requires a <= b
    ensures AllReplies(server, a) <= AllReplies(server, b)
    decreases b
  {
    if a < b { RepliesPrefix(server, a, b - 1); }
  }

  /** The lines still in the buffer parse and are kept, and the replies to all requests fit. */
  ghost predicate Good(c: Channel, server: Server, total: nat) {
    var lines, n := Split(c.receiver.incoming).lines, |c.receiver.dispatched|;
    && n + |lines| <= total && Sendable(AllReplies(server, total)) && Presentable(server)
    && (forall k :: 0 <= k < |lines| ==> server.parses(lines[k]))
    && (forall k :: server.keeps(k))
  }

  lemma AnswerStays(c: Channel, line: Line, rest: seq<Byte>, server: Server, kernel: Kernel, total: nat)
    requires Joined(c) && c.receiver.status == Open && Answered(c, server) && Healthy(kernel, 0)
    requires |c.receiver.dispatched| + 1 <= total && Sendable(AllReplies(server, total)) && Presentable(server) && server.keeps(|c.receiver.dispatched| + 1)
    ensures var next := Answer(c, line, rest, server, kernel);
            next.receiver == Receiver(rest, c.receiver.dispatched + [line], Open) && next.sender.open
  {
    hide SendEach, Faithful, AtRest, Healthy, Sendable;
    var n := |c.receiver.dispatched| + 1;
    RepliesPrefix(server, n, total);
    assert AllReplies(server, n) == c.sender.accepted + Present(server.replies(n));
    EachTaken(c.sender, server.replies(n), kernel, AllReplies(server, total));
  }

  lemma GoodRest(c: Channel, line: Line, rest: seq<Byte>, server: Server, total: nat, next: Channel)
    requires Good(c, server, total) && NEWLINE !in line && c.receiver.incoming == line + [NEWLINE] + rest
    requires next.receiver == Receiver(rest, c.receiver.dispatched + [line], Open)
    ensures Good(next, server, total) && server.parses(line)
  {
    hide Sendable, Presentable;
    SplitFirst(line, rest);
    var lines := Split(c.receiver.incoming).lines;
    assert lines[0] == line;
    forall k | 0 <= k < |Split(rest).lines| ensures server.parses(Split(rest).lines[k]) { assert lines[k + 1] == Split(rest).lines[k]; }
  }

  lemma {:induction false} ServeStays(c: Channel, server: Server, kernel: Kernel, total: nat)
    requires Joined(c) && c.receiver.status == Open && Answered(c, server) && Healthy(kernel, 0) && Good(c, server, total)
    ensures Serve(c, server, kernel).receiver.status == Open
    decreases |c.receiver.incoming|
  {
    hide Answer, Joined, Answered, Healthy, Split, Sendable, Presentable;
    if NEWLINE in c.receiver.incoming {
      var i := FirstNewline(c.receiver.incoming);
      var line, rest := c.receiver.incoming[..i], c.receiver.incoming[i + 1..];
      assert c.receiver.incoming == line + [NEWLINE] + rest;
      SplitFirst(line, rest);
      AnswerStays(c, line, rest, server, kernel, total);
      AnswerJoined(c, line, rest, server, kernel);
      AnswerAnswered(c, line, rest, server, kernel);
      var next := Answer(c, line, rest, server, kernel);
      GoodRest(c, line, rest, server, total, next);
      ServeStays(next, server, kernel, total);
    }
  }

  /** Every read is of at most 16,384 bytes. */
  predicate Reads(events: seq<Happening>) {
    forall k :: 0 <= k < |events| && events[k].Arrives? ==> 0 < |events[k].chunk| <= 16_384
  }

  /**
   A peer whose lines stay within 49,152 bytes and all parse, served by a handler that keeps it and whose replies
   serialize and fit the buffer together, over a kernel that never fails, is never closed: every request is
   dispatched and every reply accepted.
   */
  lemma {:induction false} GoodPeerServed(events: seq<Happening>, server: Server, kernel: Kernel)
    requires OnlyReads(events) && Reads(events) && Healthy(kernel, 0) && Presentable(server)
    requires Within(Split(Stream(events)), 49_152)
    requires Sendable(AllReplies(server, |Split(Stream(events)).lines|))
    requires forall k :: 0 <= k < |Split(Stream(events)).lines| ==> server.parses(Split(Stream(events)).lines[k])
    requires forall n :: server.keeps(n)
    ensures var c, lines := Run(events, server, kernel), Split(Stream(events)).lines;
            && c.receiver.status == Open && c.sender.open
            && c.receiver.dispatched == lines && c.sender.accepted == AllReplies(server, |lines|)
  {
    hide Split, Joined, Serve, Healthy, Sendable, Presentable, Flush;
    DuplexKeeps(events, server, kernel);
    RepliesInOrder(events, server, kernel);
    GoodRunOpen(events, server, kernel);
    JoinedOpen(Run(events, server, kernel));
  }

  lemma JoinedOpen(c: Channel)
    requires Joined(c)
    ensures c.receiver.status == Open <==> c.sender.open
  {
  }

  ghost predicate GoodEvents(events: seq<Happening>, server: Server) {
    var lines := Split(Stream(events)).lines;
    && OnlyReads(events) && Reads(events) && Presentable(server) && Within(Split(Stream(events)), 49_152)
    && Sendable(AllReplies(server, |lines|)) && (forall k :: 0 <= k < |lines| ==> server.parses(lines[k]))
    && forall n :: server.keeps(n)
  }

  lemma SendableFirst(a: seq<Line>, b: seq<Line>)
    requires a <= b && Sendable(b)
    ensures Sendable(a)
  {
    JoinLength(a, b);
    forall k | 0 <= k < |a| ensures |a[k]| <= 6_291_456 { assert a[k] == b[k]; }
  }

  lemma GoodFront(events: seq<Happening>, last: Happening, server: Server)
    requires GoodEvents(events + [last], server)
    ensures GoodEvents(events, server)
  {
    hide Split, Presentable, Sendable;
    var all := events + [last];
    assert all[..|events|] == events && all[|events|] == last;
    forall k | 0 <= k < |events| ensures events[k] == all[k] {}
    var s, t := Stream(events), Stream(all);
    assert t == s + if last.Arrives? then last.chunk else [];
    var more: seq<Byte> := if last.Arrives? then last.chunk else [];
    WithinPrefix(s, more, 49_152);
    SplitPrefix(s, t);
    var a, b := Split(s).lines, Split(t).lines;
    forall k | 0 <= k < |a| ensures a[k] == b[k] {}
    RepliesPrefix(server, |a|, |b|);
    SendableFirst(AllReplies(server, |a|), AllReplies(server, |b|));
  }

  lemma {:induction false} GoodRunOpen(events: seq<Happening>, server: Server, kernel: Kernel)
    requires GoodEvents(events, server) && Healthy(kernel, 0)
    ensures Run(events, server, kernel).receiver.status == Open
  {
    hide Split, Joined, Serve, Healthy, Sendable, Presentable, Flush, GoodEvents, Faithful, Answered;
    if events != [] {
      var front, last := events[..|events| - 1], events[|events| - 1];
      assert events == front + [last];
      GoodFront(front, last, server);
      GoodRunOpen(front, server, kernel);
      GoodStep(front, last, server, kernel);
    }
  }

  lemma GoodStep(front: seq<Happening>, last: Happening, server: Server, kernel: Kernel)
    requires GoodEvents(front + [last], server) && GoodEvents(front, server) && Healthy(kernel, 0)
    requires Run(front, server, kernel).receiver.status == Open
    ensures Run(front + [last], server, kernel).receiver.status == Open
  {
    hide Split, Joined, Serve, Sendable, Presentable, Flush, Faithful, Answered;
    var all := front + [last];
    assert all[..|front|] == front && all[|front|] == last;
    DuplexKeeps(front, server, kernel);
    RepliesInOrder(front, server, kernel);
    var c := Run(front, server, kernel);
    JoinedOpen(c);
    match last
    case Done(op) =>
      FlushProgresses(c.sender, kernel);
    case Arrives(chunk) =>
      GoodChunk(front, chunk, server, c);
      MoreJoined(c, chunk);
      var more := c.(receiver := c.receiver.(incoming := c.receiver.incoming + chunk));
      MoreAnswered(c, more, server);
      ServeStays(more, server, kernel, |Split(Stream(all)).lines|);
  }

  lemma MoreAnswered(c: Channel, more: Channel, server: Server)
    requires Answered(c, server) && more.sender == c.sender && more.receiver.dispatched == c.receiver.dispatched && more.receiver.status == c.receiver.status
    ensures Answered(more, server)
  {
  }

  /** A further read of a good stream fits the buffer, and what is then in it is good. */
  lemma GoodChunk(front: seq<Happening>, chunk: seq<Byte>, server: Server, c: Channel)
    requires GoodEvents(front + [Arrives(chunk)], server) && GoodEvents(front, server)
    requires c.receiver.dispatched == Split(Stream(front)).lines && c.receiver.incoming == Split(Stream(front)).residue
    ensures |c.receiver.incoming| + |chunk| <= MAX_INCOMING
    ensures Good(c.(receiver := c.receiver.(incoming := c.receiver.incoming + chunk)), server, |Split(Stream(front + [Arrives(chunk)])).lines|)
  {
    hide Split, Presentable, Sendable;
    var all := front + [Arrives(chunk)];
    assert all[..|front|] == front && all[|front|] == Arrives(chunk);
    SplitResumes(Stream(front), chunk);
    var a, b := Split(Stream(front)).lines, Split(c.receiver.incoming + chunk).lines;
    var lines := Split(Stream(all)).lines;
    assert lines == a + b;
    forall k | 0 <= k < |b| ensures server.parses(b[k]) { assert b[k] == lines[|a| + k]; }
  }
}
