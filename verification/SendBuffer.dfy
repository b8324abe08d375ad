/**
 The sending half of a connection (native/display-helper/Connection.swift). Every system call to write
 is answered by an arbitrary kernel, which may take part of what it is offered, refuse for the moment,
 or fail.
 */
module SendBuffer {
  import opened Outcomes
  import opened LineFraming

  datatype Reply = Took(count: nat) | WouldBlock | Failed

  /** What the kernel answers to each successive write. */
  type Kernel = nat -> Reply

  /** `sent` and `accepted` are the log: the bytes the kernel took, and the frames taken for sending. */
  datatype Sender = Sender(outgoing: seq<Byte>, sent: seq<Byte>, accepted: seq<Line>, open: bool, writer: bool, calls: nat)

  const UNSENT := Sender([], [], [], true, false, 0)

  /** The kernel never takes more than it is offered. */
  function Taken(count: nat, waiting: nat): nat {
    if count <= waiting && count <= MAX_WRITE then count
    else if waiting <= MAX_WRITE then waiting else MAX_WRITE
  }

  function Hang(s: Sender): Sender {
    s.(outgoing := [], open := false, writer := false)
  }

  /** One write of the flush loop that the kernel answered with a count. */
  function Write(s: Sender, n: nat): Sender
    requires n <= |s.outgoing|
  {
    s.(outgoing := s.outgoing[n..], sent := s.sent + s.outgoing[..n], calls := s.calls + 1)
  }

  function Flush(s: Sender, kernel: Kernel): Sender
    decreases |s.outgoing|
  {
    if !s.open then s
    else if s.outgoing == [] then s.(writer := false)
    else match kernel(s.calls)
      case WouldBlock => s.(writer := true, calls := s.calls + 1)
      case Failed => Hang(s)
      case Took(count) =>
        var n := Taken(count, |s.outgoing|);
        if n == 0 then Hang(s) else Flush(Write(s, n), kernel)
  }

  function Append(s: Sender, frame: Line): Sender {
    s.(outgoing := s.outgoing + frame + [NEWLINE], accepted := s.accepted + [frame])
  }

  /** `frame` is absent when the value does not serialize. */
  function SendFrame(s: Sender, frame: Option<Line>, kernel: Kernel): Sender {
    if !s.open || frame.None? || |frame.value| > MAX_FRAME || |s.outgoing| + |frame.value| + 1 > MAX_OUTGOING then Hang(s)
    else Flush(Append(s, frame.value), kernel)
  }

  datatype Operation = Send(frame: Option<Line>) | Writable | Close

  function Operate(s: Sender, op: Operation, kernel: Kernel): Sender {
    match op
    case Send(frame) => SendFrame(s, frame, kernel)
    case Writable => Flush(s, kernel)
    case Close => Hang(s)
  }

  function Sent(ops: seq<Operation>, kernel: Kernel): Sender {
    if ops == [] then UNSENT else Operate(Sent(ops[..|ops| - 1], kernel), ops[|ops| - 1], kernel)
  }

  // ----- What every run keeps -----

  /** Nothing lost, repeated or reordered, within the buffer's bound. */
  predicate Faithful(s: Sender) {
    && |s.outgoing| <= MAX_OUTGOING
    && (s.open ==> s.sent + s.outgoing == Join(s.accepted))
    && (!s.open ==> s.outgoing == [] && !s.writer && s.sent <= Join(s.accepted))
  }

  /** Between events, the connection is waiting for room exactly when something is left to send. */
  predicate AtRest(s: Sender) {
    s.writer <==> s.outgoing != []
  }

  lemma HangFaithful(s: Sender)
    requires Faithful(s)
    ensures Faithful(Hang(s))
  {
    assert s.sent <= s.sent + s.outgoing;
  }

  lemma WriteFaithful(s: Sender, n: nat)
    requires Faithful(s) && s.open && n <= |s.outgoing|
    ensures Faithful(Write(s, n))
  {
    assert s.outgoing[..n] + s.outgoing[n..] == s.outgoing;
    assert s.sent + s.outgoing[..n] + s.outgoing[n..] == s.sent + s.outgoing;
  }

  lemma {:induction false} FlushFaithful(s: Sender, kernel: Kernel)
    requires Faithful(s)
    ensures var f := Flush(s, kernel);
            Faithful(f) && AtRest(f) && f.accepted == s.accepted && s.sent <= f.sent
    decreases |s.outgoing|
  {
    if s.open && s.outgoing != [] && kernel(s.calls).Took? {
      var n := Taken(kernel(s.calls).count, |s.outgoing|);
      if n > 0 {
        WriteFaithful(s, n);
        FlushFaithful(Write(s, n), kernel);
      }
    }
  }

  lemma JoinAppends(lines: seq<Line>, line: Line)
    ensures Join(lines + [line]) == Join(lines) + line + [NEWLINE]
  {
    assert (lines + [line])[..|lines|] == lines;
  }

  lemma OperateFaithful(s: Sender, op: Operation, kernel: Kernel)
    requires Faithful(s) && AtRest(s)
    ensures var t := Operate(s, op, kernel);
            Faithful(t) && AtRest(t) && s.accepted <= t.accepted && s.sent <= t.sent && (t.open ==> s.open)
  {
    hide Flush, Faithful;
    HangFaithful(s);
    match op
    case Close =>
    case Writable =>
      FlushFaithful(s, kernel);
      FlushOpens(s, kernel);
    case Send(frame) =>
      SendFaithful(s, frame, kernel);
  }

  lemma SendFaithful(s: Sender, frame: Option<Line>, kernel: Kernel)
    requires Faithful(s)
    ensures var t := SendFrame(s, frame, kernel);
            Faithful(t) && AtRest(t) && s.accepted <= t.accepted && s.sent <= t.sent && (t.open ==> s.open)
  {
    hide Flush, Faithful;
    HangFaithful(s);
    if s.open && frame.Some? && |frame.value| <= MAX_FRAME && |s.outgoing| + |frame.value| + 1 <= MAX_OUTGOING {
      AppendFaithful(s, frame.value);
      FlushFaithful(Append(s, frame.value), kernel);
    }
  }

  lemma AppendFaithful(s: Sender, frame: Line)
    requires Faithful(s) && s.open && |s.outgoing| + |frame| + 1 <= MAX_OUTGOING
    ensures Faithful(Append(s, frame))
  {
    JoinAppends(s.accepted, frame);
    assert s.sent + (s.outgoing + frame + [NEWLINE]) == (s.sent + s.outgoing) + frame + [NEWLINE];
  }

  lemma {:induction false} FlushOpens(s: Sender, kernel: Kernel)
    ensures Flush(s, kernel).open ==> s.open
    decreases |s.outgoing|
  {
    if s.open && s.outgoing != [] && kernel(s.calls).Took? {
      var n := Taken(kernel(s.calls).count, |s.outgoing|);
      if n > 0 { FlushOpens(Write(s, n), kernel); }
    }
  }

  /**
   Under any pattern of partial, refused and failed writes: what the kernel took, followed by what waits,
   is the frames accepted so far in order; at most 8 MiB waits; and nothing waits without a write source.
   */
  lemma {:induction false} SendingIsFaithful(ops: seq<Operation>, kernel: Kernel)
    ensures Faithful(Sent(ops, kernel)) && AtRest(Sent(ops, kernel))
  {
    if ops != [] {
      SendingIsFaithful(ops[..|ops| - 1], kernel);
      OperateFaithful(Sent(ops[..|ops| - 1], kernel), ops[|ops| - 1], kernel);
    }
  }

  /** Later operations only add to what was accepted and sent, and a closed connection stays closed. */
  lemma {:induction false} SendingOnlyAdds(ops: seq<Operation>, kernel: Kernel, k: nat)
    requires k <= |ops|
    ensures var a, b := Sent(ops[..k], kernel), Sent(ops, kernel);
            a.accepted <= b.accepted && a.sent <= b.sent && (b.open ==> a.open)
    decreases |ops|
  {
    if k < |ops| {
      var front := ops[..|ops| - 1];
      SendingOnlyAdds(front, kernel, k);
      assert front[..k] == ops[..k];
      SendingIsFaithful(front, kernel);
      OperateFaithful(Sent(front, kernel), ops[|ops| - 1], kernel);
    } else {
      assert ops[..k] == ops;
    }
  }

  // ----- What the peer reads -----

  predicate Serialized(frames: seq<Line>) {
    forall k :: 0 <= k < |frames| ==> NEWLINE !in frames[k]
  }

  lemma SplitPrefix(s: seq<Byte>, t: seq<Byte>)
    requires s <= t
    ensures Split(s).lines <= Split(t).lines
  {
    assert t == s + t[|s|..];
    SplitResumes(s, t[|s|..]);
  }

  /**
   A peer that reads everything sees the accepted frames in order: always some first ones of them, and
   all of them once an open connection waits for nothing.
   */
  lemma PeerReadsFrames(ops: seq<Operation>, kernel: Kernel)
    requires Serialized(Sent(ops, kernel).accepted)
    ensures var s := Sent(ops, kernel);
            && Split(s.sent).lines <= s.accepted
            && (s.open && !s.writer ==> Split(s.sent) == Parts(s.accepted, []))
  {
    var s := Sent(ops, kernel);
    SendingIsFaithful(ops, kernel);
    SplitJoin(s.accepted);
    if s.open {
      assert s.sent <= s.sent + s.outgoing;
      if s.outgoing == [] { assert s.sent + [] == s.sent; }
    }
    SplitPrefix(s.sent, Join(s.accepted));
  }

  /** Once the kernel takes bytes at every write, one readiness event empties the buffer. */
  lemma {:induction false} ReadyPeerDrains(s: Sender, kernel: Kernel)
    requires s.open && Faithful(s)
    requires forall k :: k >= s.calls ==> kernel(k).Took? && kernel(k).count > 0
    ensures var f := Flush(s, kernel);
            f.open && f.outgoing == [] && !f.writer && f.sent == Join(s.accepted)
    decreases |s.outgoing|
  {
    if s.outgoing == [] {
      assert s.sent + [] == s.sent;
    } else {
      var n := Taken(kernel(s.calls).count, |s.outgoing|);
      WriteFaithful(s, n);
      ReadyPeerDrains(Write(s, n), kernel);
    }
  }

  /** From this call on nothing fails, and no write takes nothing. */
  ghost predicate Healthy(kernel: Kernel, from: nat) {
    forall k :: k >= from ==> !kernel(k).Failed? && (kernel(k).Took? ==> kernel(k).count > 0)
  }

  /** A flush keeps a healthy connection open, and shrinks the buffer if its first write takes anything. */
  lemma {:induction false} FlushProgresses(s: Sender, kernel: Kernel)
    requires s.open && Healthy(kernel, s.calls)
    ensures var f := Flush(s, kernel);
            && f.open && f.calls >= s.calls && |f.outgoing| <= |s.outgoing|
            && (s.outgoing != [] && kernel(s.calls).Took? ==> |f.outgoing| < |s.outgoing|)
    decreases |s.outgoing|
  {
    if s.outgoing != [] && kernel(s.calls).Took? {
      FlushProgresses(Write(s, Taken(kernel(s.calls).count, |s.outgoing|)), kernel);
    }
  }

  /** After a number of readiness events. */
  function FlushTimes(s: Sender, kernel: Kernel, events: nat): Sender {
    if events == 0 then s else Flush(FlushTimes(s, kernel, events - 1), kernel)
  }

  /** Every readiness event finds room: its first write, if there is one, takes something. */
  ghost predicate Roomy(s: Sender, kernel: Kernel, events: nat) {
    forall i :: 0 <= i < events ==>
      FlushTimes(s, kernel, i).outgoing == [] || kernel(FlushTimes(s, kernel, i).calls).Took?
  }

  lemma {:induction false} ReadinessShrinks(s: Sender, kernel: Kernel, events: nat)
    requires s.open && Faithful(s) && AtRest(s) && Healthy(kernel, s.calls) && Roomy(s, kernel, events)
    ensures var f := FlushTimes(s, kernel, events);
            && f.open && f.calls >= s.calls && Faithful(f) && AtRest(f) && f.accepted == s.accepted
            && (f.outgoing == [] || |f.outgoing| + events <= |s.outgoing|)
  {
    hide Flush, Faithful, AtRest;
    if events > 0 {
      ReadinessShrinks(s, kernel, events - 1);
      var g := FlushTimes(s, kernel, events - 1);
      FlushFaithful(g, kernel);
      FlushProgresses(g, kernel);
    }
  }

  /**
   With partial writes and refusals after them, as many readiness events as there are bytes waiting are enough:
   the connection stays open, the buffer is empty, the source is gone and every accepted frame is sent.
   */
  lemma ReadinessDrains(s: Sender, kernel: Kernel, events: nat)
    requires s.open && Faithful(s) && AtRest(s) && Healthy(kernel, s.calls) && Roomy(s, kernel, events)
    requires events >= |s.outgoing|
    ensures var f := FlushTimes(s, kernel, events);
            f.open && f.outgoing == [] && !f.writer && f.sent == Join(s.accepted)
  {
    ReadinessShrinks(s, kernel, events);
    var f := FlushTimes(s, kernel, events);
    assert f.sent + [] == f.sent;
  }

  /** A write the kernel answers with a failure, or takes nothing of. */
  predicate Bad(reply: Reply) {
    reply.Failed? || (reply.Took? && reply.count == 0)
  }

  /** A flush that closes the connection did so at a write that went badly; one that does not ends empty or without room. */
  lemma {:induction false} FlushVerdict(s: Sender, kernel: Kernel)
    requires s.open
    ensures var f := Flush(s, kernel);
            && f.calls >= s.calls
            && (!f.open ==> Bad(kernel(f.calls)))
            && (f.open ==> f.outgoing == [] || (f.calls > s.calls && kernel(f.calls - 1).WouldBlock?))
            && (forall k :: s.calls <= k < f.calls ==> !Bad(kernel(k)))
    decreases |s.outgoing|
  {
    if s.outgoing != [] && kernel(s.calls).Took? {
      var n := Taken(kernel(s.calls).count, |s.outgoing|);
      if n > 0 { FlushVerdict(Write(s, n), kernel); }
    }
  }

  /** When the kernel takes a part of the buffer and then has no room, exactly that part is sent and the rest waits. */
  lemma PartIsSent(s: Sender, kernel: Kernel)
    requires s.open && kernel(s.calls).Took? && kernel(s.calls + 1).WouldBlock?
    requires 0 < kernel(s.calls).count < |s.outgoing| && kernel(s.calls).count <= 65_536
    ensures var f, n := Flush(s, kernel), kernel(s.calls).count;
            f.open && f.writer && f.sent == s.sent + s.outgoing[..n] && f.outgoing == s.outgoing[n..]
  {
    var n := kernel(s.calls).count;
    assert Flush(s, kernel) == Flush(Write(s, n), kernel);
  }

  /** A frame is taken for sending exactly when it serialized, is at most 6 MiB and fits the 8 MiB buffer; otherwise the connection closes. */
  lemma SendExact(s: Sender, frame: Option<Line>, kernel: Kernel)
    requires s.open && Faithful(s) && Healthy(kernel, s.calls)
    ensures var t := SendFrame(s, frame, kernel);
            && (t.open <==> frame.Some? && |frame.value| <= 6_291_456 && |s.outgoing| + |frame.value| + 1 <= 8_388_608)
            && (t.open ==> t.accepted == s.accepted + [frame.value])
            && (!t.open ==> t.accepted == s.accepted && t.sent == s.sent)
  {
    if frame.Some? && |frame.value| <= MAX_FRAME && |s.outgoing| + |frame.value| + 1 <= MAX_OUTGOING {
      AppendFaithful(s, frame.value);
      FlushProgresses(Append(s, frame.value), kernel);
      FlushFaithful(Append(s, frame.value), kernel);
    }
  }

  function SendAll(frames: seq<Line>): seq<Operation> {
    seq(|frames|, i requires 0 <= i < |frames| => Send(Some(frames[i])))
  }

  predicate Sendable(frames: seq<Line>) {
    |Join(frames)| <= 8_388_608 && forall k :: 0 <= k < |frames| ==> |frames[k]| <= 6_291_456
  }

  lemma SendableFront(frames: seq<Line>, frame: Line)
    ensures Sendable(frames + [frame])
        <==> Sendable(frames) && |frame| <= 6_291_456 && |Join(frames)| + |frame| + 1 <= 8_388_608
  {
    JoinAppends(frames, frame);
    var all := frames + [frame];
    if Sendable(all) {
      assert all[|frames|] == frame;
      forall k | 0 <= k < |frames| ensures |frames[k]| <= MAX_FRAME { assert frames[k] == all[k]; }
    }
  }

  lemma EmptySendable()
    ensures Sendable([])
  {
  }

  lemma StalledSend(s: Sender, frame: Line, kernel: Kernel)
    requires kernel(s.calls).WouldBlock?
    ensures var t := SendFrame(s, Some(frame), kernel);
            && (t.open <==> s.open && |frame| <= MAX_FRAME && |s.outgoing| + |frame| + 1 <= MAX_OUTGOING)
            && (t.open ==> t.outgoing == s.outgoing + frame + [NEWLINE] && t.sent == s.sent && t.accepted == s.accepted + [frame])
  {
  }

  /** A peer that reads nothing is kept exactly while its frames fit the buffer, and then none was lost. */
  lemma {:induction false} StalledPeer(frames: seq<Line>, kernel: Kernel)
    requires forall k :: kernel(k).WouldBlock?
    ensures var s := Sent(SendAll(frames), kernel);
            && (s.open <==> Sendable(frames))
            && (s.open ==> s.outgoing == Join(frames) && s.sent == [] && s.accepted == frames)
  {
    hide SendFrame, Sendable;
    if frames == [] {
      EmptySendable();
    } else {
      var front, last := frames[..|frames| - 1], frames[|frames| - 1];
      StalledPeer(front, kernel);
      assert frames == front + [last];
      SendableFront(front, last);
      JoinAppends(front, last);
      assert SendAll(frames)[..|frames| - 1] == SendAll(front);
      StalledSend(Sent(SendAll(front), kernel), last, kernel);
    }
  }
}
