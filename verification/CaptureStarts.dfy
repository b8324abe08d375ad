/**
 When a capture succeeds (native/display-helper/Capture.swift): what alone can spoil a start, and exactly
 which events put a frame into the encoder, emit one, report a loss or stop the capture.
 */
module CaptureStarts {
  import opened CaptureLife

  /** An unlisted display, a failed check or attach, a native failure, a stop, or a frame that cannot be shown. */
  predicate Spoils(e: Event) {
    match e
    case Begin(permitted) => !permitted
    case Content(listed, permitted, attached) => !(listed && permitted && attached)
    case NativeFails => true
    case StreamResumes(ok, permitted) => !(ok && permitted)
    case Stop => true
    case Tick(permitted) => !permitted
    case Sample(permitted, complete, sized) => !permitted || (complete && !sized)
    case Encoded(permitted, jpeg) => !(permitted && jpeg)
    case NativeError => true
    case _ => false
  }

  predicate Unspoiled(events: seq<Event>) {
    forall k :: 0 <= k < |events| ==> !Spoils(events[k])
  }

  /** How far a start can have come: the events that resume it, in their order. */
  function Reached(events: seq<Event>): Phase {
    if StreamResumes(true, true) in events then Started
    else if Content(true, true, true) in events then AwaitingStream
    else if Begin(true) in events then AwaitingContent
    else Unstarted
  }

  /** A capture nothing has spoiled: live, and as far as its resumptions say. */
  predicate Flourishing(events: seq<Event>) {
    var c := Run(events).capture;
    && !c.stopped && c.stopTasks == 0
    && c.phase == Reached(events)
    && (c.phase.AwaitingStream? || c.phase.Started? ==> c.held && c.timer)
    && (c.phase.AwaitingStream? ==> c.native.Pending? || c.native.Running?)
    && (c.phase.Started? ==> c.native.Running?)
  }

  lemma UnspoiledStep(front: seq<Event>, e: Event)
    requires Lawful(front + [e]) && Flourishing(front) && !Spoils(e)
    ensures Flourishing(front + [e])
  {
    hide Lawful, Run;
    RunSnoc(front, e);
    RunSound(front);
    var all := front + [e];
    assert forall x :: x in all <==> x in front || x == e;
  }

  /**
   A start whose checks all pass, and which nothing stops, ends started with its stream running and its timer
   set: it throws or stops its stream only if something in the run spoiled it.
   */
  lemma {:induction false} UnspoiledStarts(events: seq<Event>)
    requires Lawful(events) && Unspoiled(events)
    ensures Flourishing(events)
    ensures StreamResumes(true, true) in events ==>
              var c := Run(events).capture; c.phase.Started? && !c.stopped && c.native.Running? && c.timer && c.held
    ensures !Run(events).capture.phase.Threw? && !Run(events).capture.phase.AwaitingStop?
  {
    if events != [] {
      var front, last := events[..|events| - 1], events[|events| - 1];
      assert events == front + [last];
      RunSnoc(front, last);
      UnspoiledStarts(front);
      UnspoiledStep(front, last);
    }
  }

  /** A start that throws, or goes on to stop its stream, was spoiled. */
  lemma FailedStartWasSpoiled(events: seq<Event>)
    requires Lawful(events) && (Run(events).capture.phase.Threw? || Run(events).capture.phase.AwaitingStop?)
    ensures exists k :: 0 <= k < |events| && Spoils(events[k])
  {
    if Unspoiled(events) { UnspoiledStarts(events); }
  }

  // ----- Exactly which events do what -----

  /** The events that end a live capture and tell its owner. */
  predicate Loses(e: Event) {
    match e
    case Tick(permitted) => !permitted
    case Sample(permitted, complete, sized) => !permitted || (complete && !sized)
    case Encoded(permitted, jpeg) => !permitted || !jpeg
    case NativeError => true
    case _ => false
  }

  /** On a live capture: a frame exactly from a permitted encode, a loss exactly from what ends it. */
  lemma SignalsExact(c: Capture, e: Event)
    ensures Step(c, e).signal == Frame <==> !c.stopped && e == Encoded(true, true)
    ensures Step(c, e).signal == Lost <==> !c.stopped && Loses(e)
    ensures Step(c, e).next.stopped <==> c.stopped || e.Stop? || Loses(e)
  {
  }

  /** A capture is stopped exactly when its owner stopped it or it reported a loss. */
  lemma {:induction false} StoppedExact(events: seq<Event>)
    ensures |Run(events).signals| == |events|
    ensures Run(events).capture.stopped <==> exists k :: 0 <= k < |events| && (events[k].Stop? || Run(events).signals[k] == Lost)
  {
    SignalCount(events);
    if events != [] {
      var front, last := events[..|events| - 1], events[|events| - 1];
      assert events == front + [last];
      RunSnoc(front, last);
      StoppedExact(front);
      SignalsExact(Run(front).capture, last);
      assert Run(events).signals[..|front|] == Run(front).signals;
      if Run(front).capture.stopped {
        var k :| 0 <= k < |front| && (front[k].Stop? || Run(front).signals[k] == Lost);
        assert events[k] == front[k] && Run(events).signals[k] == Run(front).signals[k];
      } else if last.Stop? || Loses(last) {
        assert events[|front|].Stop? || Run(events).signals[|front|] == Lost;
      } else {
        forall k | 0 <= k < |events| ensures !(events[k].Stop? || Run(events).signals[k] == Lost) {
          if k < |front| { assert events[k] == front[k] && Run(events).signals[k] == Run(front).signals[k]; }
        }
      }
    }
  }

  /** A sample is encoded exactly when it is permitted, complete and of the right size, the capture is live and nothing is encoding. */
  lemma SampleExact(events: seq<Event>, e: Event)
    requires Lawful(events + [e])
    ensures var c, d := Run(events).capture, Run(events + [e]).capture;
            d.encodes == c.encodes + 1 <==> e == Sample(true, true, true) && !c.stopped && c.encodes == 0
  {
    RunSnoc(events, e);
    RunSound(events);
  }

  /** Frames come out exactly of the permitted encodes that return to a capture still live. */
  lemma FramesExact(events: seq<Event>, k: nat)
    requires k < |events|
    ensures |Run(events).signals| == |events|
    ensures Run(events).signals[k] == Frame <==> events[k] == Encoded(true, true) && !Run(events[..k]).capture.stopped
  {
    assert events[..k + 1] == events[..k] + [events[k]] && events == events[..k + 1] + events[k + 1..];
    RunSnoc(events[..k], events[k]);
    SignalsExact(Run(events[..k]).capture, events[k]);
    SignalCount(events[..k]);
    EarlierSignals(events[..k + 1], events[k + 1..], k);
  }

  // ----- Every start returns, and every stop is carried out once -----

  /** The events at which a start throws; the list of displays comes too late for a capture already stopped. */
  predicate Throws(c: Capture, e: Event) {
    match e
    case Begin(permitted) => !permitted
    case Content(listed, permitted, attached) => c.stopped || !(listed && permitted && attached)
    case StreamResumes(ok, _) => !ok
    case StopResumes => true
    case _ => false
  }

  ghost predicate Failed(events: seq<Event>) {
    exists k :: 0 <= k < |events| && Throws(Run(events[..k]).capture, events[k])
  }

  ghost predicate Resumed(events: seq<Event>) {
    exists k :: 0 <= k < |events| && events[k].StreamResumes?
  }

  lemma FailedSnoc(front: seq<Event>, e: Event)
    ensures Failed(front + [e]) <==> Failed(front) || Throws(Run(front).capture, e)
    ensures Resumed(front + [e]) <==> Resumed(front) || e.StreamResumes?
  {
    hide Throws, Run;
    var all := front + [e];
    assert all[|front|] == e && all[..|front|] == front;
    forall k | 0 <= k < |front| ensures all[k] == front[k] && all[..k] == front[..k] {}
  }

  /** A start has thrown exactly when one of those events came, at the latest when the stop it awaited returned. */
  lemma {:induction false} ThrewExact(events: seq<Event>)
    requires Lawful(events)
    ensures var phase := Run(events).capture.phase;
            && (phase.Threw? <==> Failed(events))
            && (Resumed(events) ==> phase.Started? || phase.AwaitingStop? || phase.Threw?)
            && (phase.Started? || phase.AwaitingStop? ==> Resumed(events))
  {
    hide Throws, Failed, Resumed;
    if events == [] {
      NothingYet();
    } else {
      var front, last := events[..|events| - 1], events[|events| - 1];
      assert events == front + [last];
      RunSnoc(front, last);
      ThrewExact(front);
      FailedSnoc(front, last);
      ThrewStep(Run(front).capture, last);
    }
  }

  lemma NothingYet()
    ensures !Failed([]) && !Resumed([])
  {
  }

  lemma ThrewStep(c: Capture, e: Event)
    requires Can(c, e)
    ensures var d := Step(c, e).next;
            && (Throws(c, e) ==> d.phase.Threw?)
            && (!Throws(c, e) && !e.Begin? && !e.Content? && !e.StreamResumes? ==> d.phase == c.phase)
            && (!Throws(c, e) && (e.Begin? || e.Content?) ==> d.phase.AwaitingContent? || d.phase.AwaitingStream?)
            && (!Throws(c, e) && e.StreamResumes? ==> d.phase.Started? || d.phase.AwaitingStop?)
            && (Throws(c, e) || e.Begin? || e.Content? || e.StreamResumes? ==> !c.phase.Threw? && !c.phase.Started?)
  {
  }

  function StopsRun(events: seq<Event>): nat {
    if events == [] then 0 else StopsRun(events[..|events| - 1]) + if events[|events| - 1].StopTask? then 1 else 0
  }

  /** A stream that was there when its capture was stopped gets exactly one detached stop, outstanding or carried out. */
  lemma {:induction false} StoppedOnce(events: seq<Event>)
    requires Lawful(events)
    ensures var c := Run(events).capture;
            && StopsRun(events) + c.stopTasks <= 1
            && (c.held ==> StopsRun(events) + c.stopTasks == 0)
            && (c.stopped && !c.native.Absent? ==> StopsRun(events) + c.stopTasks == 1)
            && (c.native.Absent? ==> StopsRun(events) + c.stopTasks == 0)
  {
    if events != [] {
      var front, last := events[..|events| - 1], events[|events| - 1];
      assert events == front + [last];
      RunSnoc(front, last);
      RunSound(front);
      StoppedOnce(front);
      StopStep(Run(front).capture, last, StopsRun(front));
    }
  }

  lemma StopStep(c: Capture, e: Event, done: nat)
    requires Sound(c) && Can(c, e)
    requires done + c.stopTasks <= 1 && (c.held ==> done + c.stopTasks == 0)
    requires c.stopped && !c.native.Absent? ==> done + c.stopTasks == 1
    requires c.native.Absent? ==> done + c.stopTasks == 0
    ensures var d, n := Step(c, e).next, done + if e.StopTask? then 1 else 0;
            && n + d.stopTasks <= 1 && (d.held ==> n + d.stopTasks == 0)
            && (d.stopped && !d.native.Absent? ==> n + d.stopTasks == 1)
            && (d.native.Absent? ==> n + d.stopTasks == 0)
  {
  }

  /** Once the start has returned, carrying that stop out is all it takes for a stopped capture to let go of everything. */
  lemma OneStopSettles(events: seq<Event>)
    requires Lawful(events) && Run(events).capture.stopped && Run(events).capture.stopTasks > 0
    requires Run(events).capture.phase.Started? || Run(events).capture.phase.Threw?
    ensures Lawful(events + [StopTask])
    ensures var c := Run(events + [StopTask]).capture;
            c.stopTasks == 0 && !c.native.Running? && !c.native.Pending? && !c.timer && !c.held
  {
    RunSnoc(events, StopTask);
    StoppedOnce(events);
    NoStreamOutlivesItsOwner(events + [StopTask]);
  }
}
