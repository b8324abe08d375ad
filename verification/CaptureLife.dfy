/**
 The life of one display capture (native/display-helper/Capture.swift): the suspended start, the
 native stream, the detached stop tasks, the permission timer and the single frame being encoded.
 */
module CaptureLife {

  /** Where the asynchronous start is suspended, or how it ended. */
  datatype Phase = Unstarted | AwaitingContent | AwaitingStream | AwaitingStop | Started | Threw

  /** What the operating system is doing for this capture's stream. */
  datatype Native = Absent | Idle | Pending | Running | Ended

  datatype Capture = Capture(
    phase: Phase,
    stopped: bool,
    held: bool,        // the capture still refers to its stream
    timer: bool,       // the permission timer is scheduled
    encoding: bool,
    native: Native,
    stopTasks: nat,    // detached tasks that will still call the stream's stop
    encodes: nat)      // frames handed to the encoder and not yet back

  /** One main-actor segment, or one thing the operating system does in between. */
  datatype Event =
    | Begin(permitted: bool)
    | Content(listed: bool, permitted: bool, attached: bool)
    | NativeStarts
    | NativeFails
    | StreamResumes(ok: bool, permitted: bool)
    | StopResumes
    | Stop
    | StopTask
    | Tick(permitted: bool)
    | Sample(permitted: bool, complete: bool, sized: bool)
    | Encoded(permitted: bool, jpeg: bool)
    | NativeError

  datatype Signal = Quiet | Frame | Lost

  datatype Outcome = Outcome(next: Capture, signal: Signal)

  const NEW := Capture(Unstarted, false, false, false, false, Absent, 0, 0)

  /** Stopping ends a running stream and is harmless on any other. */
  function Halt(native: Native): Native {
    if native.Running? then Ended else native
  }

  function StopNow(c: Capture): Capture {
    if c.held then c.(stopped := true, timer := false, held := false, stopTasks := c.stopTasks + 1)
    else c.(stopped := true, timer := false)
  }

  function Step(c: Capture, e: Event): Outcome {
    match e
    case Begin(permitted) => Outcome(c.(phase := if permitted then AwaitingContent else Threw), Quiet)
    case Content(listed, permitted, attached) =>
      if !listed || c.stopped || !permitted then Outcome(c.(phase := Threw), Quiet)
      else if !attached then Outcome(c.(phase := Threw, held := true, timer := true, native := Idle), Quiet)
      else Outcome(c.(phase := AwaitingStream, held := true, timer := true, native := Pending), Quiet)
    case NativeStarts => Outcome(c.(native := Running), Quiet)
    case NativeFails => Outcome(c.(native := Ended), Quiet)
    case StreamResumes(ok, permitted) =>
      Outcome(c.(phase := if !ok then Threw else if !c.stopped && permitted then Started else AwaitingStop), Quiet)
    case StopResumes => Outcome(c.(phase := Threw, native := Halt(c.native)), Quiet)
    case Stop => Outcome(StopNow(c), Quiet)
    case StopTask => Outcome(c.(native := Halt(c.native), stopTasks := if c.stopTasks > 0 then c.stopTasks - 1 else 0), Quiet)
    case Tick(permitted) =>
      if c.stopped || permitted then Outcome(c, Quiet) else Outcome(StopNow(c), Lost)
    case Sample(permitted, complete, sized) =>
      if c.stopped then Outcome(c, Quiet)
      else if !permitted then Outcome(StopNow(c), Lost)
      else if !complete then Outcome(c, Quiet)
      else if !sized then Outcome(StopNow(c), Lost)
      else if c.encoding then Outcome(c, Quiet)
      else Outcome(c.(encoding := true, encodes := c.encodes + 1), Quiet)
    case Encoded(permitted, jpeg) =>
      var c' := c.(encoding := false, encodes := if c.encodes > 0 then c.encodes - 1 else 0);
      if c.stopped then Outcome(c', Quiet)
      else if !permitted || !jpeg then Outcome(StopNow(c'), Lost)
      else Outcome(c', Frame)
    case NativeError =>
      var c' := c.(native := Halt(c.native));
      if c.stopped then Outcome(c', Quiet) else Outcome(StopNow(c'), Lost)
  }

  /** When each event can occur. */
  predicate Can(c: Capture, e: Event) {
    match e
    case Begin(_) => c.phase.Unstarted?
    case Content(_, _, _) => c.phase.AwaitingContent?
    case NativeStarts => c.native.Pending?
    case NativeFails => c.native.Pending?
    case StreamResumes(ok, _) => c.phase.AwaitingStream? && !c.native.Pending? && (!ok ==> c.native.Ended?)
    case StopResumes => c.phase.AwaitingStop?
    case Stop => true
    case StopTask => c.stopTasks > 0
    case Tick(_) => c.timer
    case Sample(_, _, _) => !c.native.Absent?
    case Encoded(_, _) => c.encodes > 0
    case NativeError => !c.native.Absent?
  }

  /** What every interleaving keeps. */
  predicate Sound(c: Capture) {
    && (c.encoding <==> c.encodes == 1) && c.encodes <= 1
    && (c.held <==> !c.native.Absent? && !c.stopped)
    && (c.timer <==> c.held)
    && (c.phase.Unstarted? || c.phase.AwaitingContent? ==> c.native.Absent?)
    && (c.native.Absent? ==> c.encodes == 0)
    && (c.native.Pending? ==> c.phase.AwaitingStream?)
    && (c.phase.Threw? ==> !c.native.Running?)
    && (c.phase.AwaitingStream? ==> !c.native.Absent? && !c.native.Idle?)
    && (c.stopped && c.native.Running? ==> c.stopTasks > 0 || c.phase.AwaitingStream? || c.phase.AwaitingStop?)
  }

  lemma StepSound(c: Capture, e: Event)
    requires Sound(c) && Can(c, e)
    ensures Sound(Step(c, e).next)
  {
  }

  lemma StoppedStaysQuiet(c: Capture, e: Event)
    requires c.stopped
    ensures Step(c, e).next.stopped && Step(c, e).signal == Quiet
  {
  }

  /** A loss is reported only by the step that stops the capture; a frame only by a capture not stopped. */
  lemma SignalsMeanWhatTheySay(c: Capture, e: Event)
    ensures Step(c, e).signal == Lost ==> !c.stopped && Step(c, e).next.stopped
    ensures Step(c, e).signal == Frame ==> !Step(c, e).next.stopped && e.Encoded? && e.permitted && e.jpeg
  {
  }

  /** No start is suspended and no stop task is outstanding. */
  predicate Settled(c: Capture) {
    !c.phase.AwaitingContent? && !c.phase.AwaitingStream? && !c.phase.AwaitingStop? && c.stopTasks == 0
  }

  // ----- Runs -----

  datatype Trace = Trace(capture: Capture, signals: seq<Signal>)

  function Run(events: seq<Event>): Trace {
    if events == [] then Trace(NEW, [])
    else
      var t := Run(events[..|events| - 1]);
      var o := Step(t.capture, events[|events| - 1]);
      Trace(o.next, t.signals + [o.signal])
  }

  predicate Lawful(events: seq<Event>) {
    events == [] || (Lawful(events[..|events| - 1]) && Can(Run(events[..|events| - 1]).capture, events[|events| - 1]))
  }

  lemma {:induction false} RunSound(events: seq<Event>)
    requires Lawful(events)
    ensures Sound(Run(events).capture)
  {
    if events != [] {
      RunSound(events[..|events| - 1]);
      StepSound(Run(events[..|events| - 1]).capture, events[|events| - 1]);
    }
  }

  /**
   Wherever stops and losses of permission fall around the suspended start: once the start and the
   stop tasks are done, a stopped capture has no running stream and no timer.
   */
  lemma NoStreamOutlivesItsOwner(events: seq<Event>)
    requires Lawful(events)
    ensures var c := Run(events).capture;
            && c.encodes <= 1
            && (c.stopped && Settled(c) ==> !c.native.Running? && !c.native.Pending? && !c.timer && !c.held)
  {
    RunSound(events);
  }

  /** A capture still running after its last stop task is exactly one nobody has stopped. */
  lemma RunningNeedsAnOwner(events: seq<Event>)
    requires Lawful(events) && Settled(Run(events).capture) && Run(events).capture.native.Running?
    ensures !Run(events).capture.stopped && Run(events).capture.timer
  {
    RunSound(events);
  }

  lemma {:induction false} StoppedForGood(a: seq<Event>, b: seq<Event>)
    requires Run(a).capture.stopped
    ensures Run(a + b).capture.stopped
    ensures |Run(a + b).signals| == |a| + |b| && |Run(a).signals| == |a|
    ensures forall k :: |a| <= k < |a| + |b| ==> Run(a + b).signals[k] == Quiet
  {
    if b == [] {
      assert a + b == a;
      SignalCount(a);
    } else {
      var front, last := b[..|b| - 1], b[|b| - 1];
      StoppedForGood(a, front);
      assert (a + b)[..|a + b| - 1] == a + front;
      StoppedStaysQuiet(Run(a + front).capture, last);
      assert Run(a + b).signals == Run(a + front).signals + [Quiet];
    }
  }

  lemma {:induction false} SignalCount(events: seq<Event>)
    ensures |Run(events).signals| == |events|
  {
    if events != [] { SignalCount(events[..|events| - 1]); }
  }

  /** Once stopped, no frame is ever emitted, not even by an encode already in flight, and no loss is reported. */
  lemma SilentAfterStop(a: seq<Event>, e: Event, b: seq<Event>)
    requires Step(Run(a).capture, e).next.stopped
    ensures forall k :: |a| < k < |a| + 1 + |b| ==>
              |Run(a + [e] + b).signals| == |a| + 1 + |b| && Run(a + [e] + b).signals[k] == Quiet
  {
    assert (a + [e])[..|a + [e]| - 1] == a;
    StoppedForGood(a + [e], b);
  }

  /** A failed check of consent, permissions and display: one of the three of the start, or of the three while capturing. */
  predicate Denied(e: Event) {
    match e
    case Begin(permitted) => !permitted
    case Content(_, permitted, _) => !permitted
    case StreamResumes(ok, permitted) => ok && !permitted
    case Tick(permitted) => !permitted
    case Sample(permitted, _, _) => !permitted
    case Encoded(permitted, _) => !permitted
    case _ => false
  }

  predicate NoFrameFrom(signals: seq<Signal>, from: nat) {
    forall k :: from <= k < |signals| ==> signals[k] != Frame
  }

  /** Whatever can still happen after `a` and then `e`, no frame is emitted by `e` or later. */
  ghost predicate Mute(a: seq<Event>, e: Event) {
    forall b :: Lawful(a + [e] + b) ==> NoFrameFrom(Run(a + [e] + b).signals, |a|)
  }

  /** A start that threw before there was a stream: nothing can come of it any more. */
  predicate Inert(c: Capture) {
    c.phase.Threw? && c.native.Absent? && c.encodes == 0
  }

  lemma InertStays(c: Capture, e: Event)
    requires Inert(c) && Can(c, e)
    ensures Inert(Step(c, e).next) && Step(c, e).signal != Frame
  {
  }

  lemma RunSnoc(a: seq<Event>, e: Event)
    ensures var c, o := Run(a).capture, Step(Run(a).capture, e);
            && Run(a + [e]) == Trace(o.next, Run(a).signals + [o.signal])
            && (Lawful(a + [e]) <==> Lawful(a) && Can(c, e))
  {
    assert (a + [e])[..|a + [e]| - 1] == a;
  }

  lemma {:induction false} LawfulFront(a: seq<Event>, b: seq<Event>)
    requires Lawful(a + b)
    ensures Lawful(a)
  {
    if b == [] {
      assert a + b == a;
    } else {
      var front, last := b[..|b| - 1], b[|b| - 1];
      assert a + b == a + front + [last];
      RunSnoc(a + front, last);
      LawfulFront(a, front);
    }
  }

  lemma {:induction false} InertForGood(a: seq<Event>, b: seq<Event>)
    requires Lawful(a + b) && Inert(Run(a).capture)
    ensures Inert(Run(a + b).capture) && |Run(a + b).signals| == |a| + |b| && NoFrameFrom(Run(a + b).signals, |a|)
  {
    SignalCount(a + b);
    if b == [] {
      assert a + b == a;
    } else {
      var front, last := b[..|b| - 1], b[|b| - 1];
      assert a + b == a + front + [last];
      RunSnoc(a + front, last);
      InertForGood(a, front);
      InertStays(Run(a + front).capture, last);
    }
  }

  /** A failed check leaves the capture stopped or inert, except that of a start whose stream is already there. */
  lemma DeniedEnds(c: Capture, e: Event)
    requires Denied(e) && Sound(c) && Can(c, e) && (e.StreamResumes? ==> c.stopped)
    ensures (Step(c, e).next.stopped || Inert(Step(c, e).next)) && Step(c, e).signal != Frame
  {
  }

  lemma MuteAfter(a: seq<Event>, e: Event, b: seq<Event>)
    requires Lawful(a + [e] + b) && Denied(e) && (e.StreamResumes? ==> Run(a).capture.stopped)
    ensures NoFrameFrom(Run(a + [e] + b).signals, |a|)
  {
    hide Lawful, Run, Step, Denied, Can, Sound;
    LawfulFront(a + [e], b);
    RunSnoc(a, e);
    RunSound(a);
    DeniedEnds(Run(a).capture, e);
    SignalCount(a);
    SignalCount(a + [e] + b);
    EarlierSignals(a + [e], b, |a|);
    if Step(Run(a).capture, e).next.stopped {
      StoppedForGood(a + [e], b);
    } else {
      InertForGood(a + [e], b);
    }
  }

  /** What brings a frame out of a start that is stopping its stream again. */
  function Leak(c: Capture): seq<Event> {
    if c.encoding then [Encoded(true, true)] else [Sample(true, true, true), Encoded(true, true)]
  }

  lemma EncodeEmits(a: seq<Event>)
    requires Lawful(a) && !Run(a).capture.stopped && Run(a).capture.encoding
    ensures var x := a + [Encoded(true, true)];
            Lawful(x) && |Run(x).signals| == |x| && Run(x).signals[|a|] == Frame
  {
    hide Lawful, Run;
    RunSound(a);
    RunSnoc(a, Encoded(true, true));
    SignalCount(a);
  }

  lemma SampleEncodes(a: seq<Event>)
    requires Lawful(a) && !Run(a).capture.stopped && !Run(a).capture.encoding && !Run(a).capture.native.Absent?
    ensures var x := a + [Sample(true, true, true)];
            Lawful(x) && !Run(x).capture.stopped && Run(x).capture.encoding
  {
    hide Lawful, Run;
    RunSnoc(a, Sample(true, true, true));
  }

  lemma Leaks(a: seq<Event>)
    requires Lawful(a) && !Run(a).capture.stopped && !Run(a).capture.native.Absent?
    ensures var b := Leak(Run(a).capture);
            Lawful(a + b) && |Run(a + b).signals| == |a| + |b| && Run(a + b).signals[|a| + |b| - 1] == Frame
  {
    hide Lawful, Run;
    if Run(a).capture.encoding {
      EncodeEmits(a);
    } else {
      var x := a + [Sample(true, true, true)];
      SampleEncodes(a);
      EncodeEmits(x);
      assert a + [Sample(true, true, true), Encoded(true, true)] == x + [Encoded(true, true)];
    }
  }

  lemma AwaitedStopLeaks(a: seq<Event>, e: Event)
    requires Lawful(a + [e]) && Denied(e) && e.StreamResumes? && !Run(a).capture.stopped
    ensures !Mute(a, e)
  {
    RunSnoc(a, e);
    RunSound(a);
    Leaks(a + [e]);
    var b := Leak(Run(a + [e]).capture);
    assert Lawful(a + [e] + b);
    assert Run(a + [e] + b).signals[|a| + |b|] == Frame;
  }

  /**
   After a failed check no frame can be emitted any more, neither by that event nor later, exactly unless it is
   the check after the native start of a capture nobody has stopped: while that start waits for its stream to
   stop, a later check can pass again.
   */
  lemma SilentAfterDenial(a: seq<Event>, e: Event)
    requires Lawful(a + [e]) && Denied(e)
    ensures Mute(a, e) <==> (e.StreamResumes? ==> Run(a).capture.stopped)
  {
    if e.StreamResumes? ==> Run(a).capture.stopped {
      forall b | Lawful(a + [e] + b) ensures NoFrameFrom(Run(a + [e] + b).signals, |a|) { MuteAfter(a, e, b); }
    } else {
      AwaitedStopLeaks(a, e);
    }
  }

  const LEAKING := [
    Begin(true), Content(true, true, true), NativeStarts, StreamResumes(true, false),
    Sample(true, true, true), Encoded(true, true)]

  /** The shortest run to such a frame: the check after the native start fails, the two after it pass. */
  lemma FrameAfterDenial()
    ensures Lawful(LEAKING) && Denied(LEAKING[3]) && |Run(LEAKING).signals| == 6 && Run(LEAKING).signals[5] == Frame
  {
    var a := [Begin(true), Content(true, true, true), NativeStarts];
    RunSnoc([], Begin(true));
    RunSnoc([Begin(true)], Content(true, true, true));
    RunSnoc([Begin(true), Content(true, true, true)], NativeStarts);
    assert [] + [Begin(true)] == [Begin(true)];
    assert [Begin(true)] + [Content(true, true, true)] == [Begin(true), Content(true, true, true)];
    assert [Begin(true), Content(true, true, true)] + [NativeStarts] == a;
    RunSnoc(a, StreamResumes(true, false));
    Leaks(a + [StreamResumes(true, false)]);
    assert LEAKING == a + [StreamResumes(true, false)] + [Sample(true, true, true), Encoded(true, true)];
  }

  /** A start that threw, whatever check or await it threw at, has no stream running or about to. */
  lemma ThrownStartHasNoStream(events: seq<Event>)
    requires Lawful(events) && Run(events).capture.phase.Threw?
    ensures !Run(events).capture.native.Running? && !Run(events).capture.native.Pending?
  {
    RunSound(events);
  }

  /** What was signalled is never changed. */
  lemma {:induction false} EarlierSignals(a: seq<Event>, b: seq<Event>, k: nat)
    requires k < |a|
    ensures |Run(a).signals| == |a| && |Run(a + b).signals| == |a| + |b|
    ensures Run(a + b).signals[k] == Run(a).signals[k]
  {
    SignalCount(a);
    SignalCount(a + b);
    if b == [] {
      assert a + b == a;
    } else {
      EarlierSignals(a, b[..|b| - 1], k);
      assert (a + b)[..|a + b| - 1] == a + b[..|b| - 1];
    }
  }

  /** Every frame in a run comes back from the encoder of a capture still live, with its permission checked then. */
  lemma {:induction false} FramesAreChecked(events: seq<Event>, k: nat)
    requires k < |events|
    ensures |Run(events).signals| == |events|
    ensures Run(events).signals[k] == Frame ==> events[k] == Encoded(true, true) && !Run(events[..k + 1]).capture.stopped
    decreases |events|
  {
    SignalCount(events);
    var front := events[..|events| - 1];
    SignalCount(front);
    if k < |front| {
      FramesAreChecked(front, k);
      assert front[..k + 1] == events[..k + 1];
    } else {
      SignalsMeanWhatTheySay(Run(front).capture, events[k]);
      assert events[..k + 1] == events;
    }
  }

  function Count(signals: seq<Signal>, s: Signal): nat {
    if signals == [] then 0
    else Count(signals[..|signals| - 1], s) + if signals[|signals| - 1] == s then 1 else 0
  }

  /** The owner hears of a loss at most once, and only from a capture that has stopped itself. */
  lemma {:induction false} LostAtMostOnce(events: seq<Event>)
    ensures Count(Run(events).signals, Lost) <= if Run(events).capture.stopped then 1 else 0
  {
    if events != [] {
      var front := events[..|events| - 1];
      LostAtMostOnce(front);
      var c, e := Run(front).capture, events[|events| - 1];
      if c.stopped { StoppedStaysQuiet(c, e); }
      SignalsMeanWhatTheySay(c, e);
      assert Run(events).signals[..|Run(events).signals| - 1] == Run(front).signals;
    }
  }

  /** Samples accepted for encoding so far. */
  function Accepted(events: seq<Event>): nat {
    if events == [] then 0
    else
      var front := events[..|events| - 1];
      Accepted(front) + if !Run(front).capture.encoding && Run(events).capture.encoding then 1 else 0
  }

  function Returned(events: seq<Event>): nat {
    if events == [] then 0
    else Returned(events[..|events| - 1]) + if events[|events| - 1].Encoded? then 1 else 0
  }

  lemma EncodesConserved(c: Capture, e: Event)
    requires Sound(c) && Can(c, e)
    ensures var o := Step(c, e);
            && c.encodes + (if !c.encoding && o.next.encoding then 1 else 0) == o.next.encodes + (if e.Encoded? then 1 else 0)
            && (o.signal == Frame ==> e.Encoded?)
  {
  }

  /** Frames are conserved: emitted at most once each, and every accepted sample is back or in flight. */
  lemma {:induction false} FramesConserved(events: seq<Event>)
    requires Lawful(events)
    ensures Accepted(events) == Returned(events) + Run(events).capture.encodes
    ensures Count(Run(events).signals, Frame) <= Returned(events)
  {
    if events != [] {
      var front := events[..|events| - 1];
      FramesConserved(front);
      RunSound(front);
      EncodesConserved(Run(front).capture, events[|events| - 1]);
      assert Run(events).signals[..|Run(events).signals| - 1] == Run(front).signals;
    }
  }
}
