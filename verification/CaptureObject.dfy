/**
 The capture object (native/display-helper/Capture.swift). `phase` is the program counter of the
 suspended start; `native` and `stopTasks` stand for what the system still has to do. Each method is one
 main-actor segment, or one thing the system does in between, and may come whenever it can.
 */
module CaptureObject {
  import opened CaptureLife

  class DisplayCapture {
    var phase: Phase
    var stopped: bool
    var held: bool
    var timer: bool
    var encoding: bool
    var native: Native
    var stopTasks: nat
    var encodes: nat
    ghost var history: seq<Event>
    ghost var signals: seq<Signal>

    constructor ()
      ensures Valid() && View() == NEW && history == []
    {
      phase, stopped, held, timer, encoding := Unstarted, false, false, false, false;
      native, stopTasks, encodes := Absent, 0, 0;
      history, signals := [], [];
    }

    function View(): Capture
      reads this
    {
      Capture(phase, stopped, held, timer, encoding, native, stopTasks, encodes)
    }

    /** The fields are where the lawful run of everything that happened so far leads, and it keeps them sound. */
    ghost predicate Valid()
      reads this
    {
      && Lawful(history) && Run(history) == Trace(View(), signals)
      && Sound(View())
    }

    /** A stopped capture whose start and stop tasks are done has let go of everything. */
    ghost predicate LetGo()
      reads this
    {
      stopped && Settled(View()) ==> !native.Running? && !native.Pending? && !timer && !held
    }

    /** What one event leaves, and what the owner is told. */
    twostate predicate Took(e: Event, signal: Signal)
      reads this
    {
      && Outcome(View(), signal) == Step(old(View()), e)
      && history == old(history) + [e] && signals == old(signals) + [signal]
      && Valid() && LetGo()
      && (old(stopped) ==> stopped && signal == Quiet)
      && (signal == Frame ==> !stopped && e == Encoded(true, true))
    }

    ghost method Log(e: Event, signal: Signal, before: Capture)
      requires Lawful(history) && Run(history) == Trace(before, signals) && Sound(before) && Can(before, e)
      requires Outcome(View(), signal) == Step(before, e)
      modifies this`history, this`signals
      ensures history == old(history) + [e] && signals == old(signals) + [signal]
      ensures Valid() && LetGo()
      ensures before.stopped ==> stopped && signal == Quiet
      ensures signal == Frame ==> !stopped && e == Encoded(true, true)
    {
      StepSound(before, e);
      SignalsMeanWhatTheySay(before, e);
      if before.stopped { StoppedStaysQuiet(before, e); }
      history := history + [e];
      signals := signals + [signal];
      assert history[..|history| - 1] == old(history);
    }

    method StartBegins(permitted: bool)
      requires Valid() && Can(View(), Begin(permitted))
      modifies this
      ensures Took(Begin(permitted), Quiet)
    {
      ghost var before := View();
      phase := if permitted then AwaitingContent else Threw;
      Log(Begin(permitted), Quiet, before);
    }

    /** The list of displays is there; attaching the output may throw after the timer was set. */
    method ContentArrives(listed: bool, permitted: bool, attached: bool)
      requires Valid() && Can(View(), Content(listed, permitted, attached))
      modifies this
      ensures Took(Content(listed, permitted, attached), Quiet)
    {
      ghost var before := View();
      if !listed || stopped || !permitted {
        phase := Threw;
      } else {
        held := true;
        native := Idle;
        timer := true;
        if attached {
          native := Pending;
          phase := AwaitingStream;
        } else {
          phase := Threw;
        }
      }
      Log(Content(listed, permitted, attached), Quiet, before);
    }

    /** The native start returned; a revoked one is stopped again before the start throws. */
    method StreamArrives(ok: bool, permitted: bool)
      requires Valid() && Can(View(), StreamResumes(ok, permitted))
      modifies this
      ensures Took(StreamResumes(ok, permitted), Quiet)
    {
      ghost var before := View();
      if !ok {
        phase := Threw;
      } else if !stopped && permitted {
        phase := Started;
      } else {
        phase := AwaitingStop;
      }
      Log(StreamResumes(ok, permitted), Quiet, before);
    }

    /** The stop of a revoked start returned, and the start throws. */
    method StopArrives()
      requires Valid() && Can(View(), StopResumes)
      modifies this
      ensures Took(StopResumes, Quiet)
    {
      ghost var before := View();
      native := Halt(native);
      phase := Threw;
      Log(StopResumes, Quiet, before);
    }

    method Halts()
      modifies this`stopped, this`timer, this`held, this`stopTasks
      ensures View() == StopNow(old(View()))
    {
      stopped := true;
      timer := false;
      if held {
        held := false;
        stopTasks := stopTasks + 1;
      }
    }

    method StopCapture()
      requires Valid() && Can(View(), Stop)
      modifies this
      ensures Took(Stop, Quiet)
    {
      ghost var before := View();
      Halts();
      Log(Stop, Quiet, before);
    }

    /** A detached stop of the stream returned. */
    method StopTaskRuns()
      requires Valid() && Can(View(), StopTask)
      modifies this
      ensures Took(StopTask, Quiet)
    {
      ghost var before := View();
      native := Halt(native);
      stopTasks := stopTasks - 1;
      Log(StopTask, Quiet, before);
    }

    /** The system starts the stream, or fails to. */
    method NativeAnswers(ok: bool)
      requires Valid() && Can(View(), if ok then NativeStarts else NativeFails)
      modifies this
      ensures Took(if ok then NativeStarts else NativeFails, Quiet)
    {
      ghost var before := View();
      native := if ok then Running else Ended;
      Log(if ok then NativeStarts else NativeFails, Quiet, before);
    }

    method TimerFires(permitted: bool) returns (signal: Signal)
      requires Valid() && Can(View(), Tick(permitted))
      modifies this
      ensures Took(Tick(permitted), signal)
    {
      ghost var before := View();
      signal := Quiet;
      if !stopped && !permitted {
        Halts();
        signal := Lost;
      }
      Log(Tick(permitted), signal, before);
    }

    method SampleArrives(permitted: bool, complete: bool, sized: bool) returns (signal: Signal)
      requires Valid() && Can(View(), Sample(permitted, complete, sized))
      modifies this
      ensures Took(Sample(permitted, complete, sized), signal)
    {
      ghost var before := View();
      signal := Quiet;
      if !stopped {
        if !permitted {
          Halts();
          signal := Lost;
        } else if complete {
          if !sized {
            Halts();
            signal := Lost;
          } else if !encoding {
            encoding := true;
            encodes := encodes + 1;
          }
        }
      }
      Log(Sample(permitted, complete, sized), signal, before);
    }

    method EncodeReturns(permitted: bool, jpeg: bool) returns (signal: Signal)
      requires Valid() && Can(View(), Encoded(permitted, jpeg))
      modifies this
      ensures Took(Encoded(permitted, jpeg), signal)
    {
      ghost var before := View();
      encoding := false;
      encodes := encodes - 1;
      signal := Quiet;
      if !stopped {
        if !permitted || !jpeg {
          Halts();
          signal := Lost;
        } else {
          signal := Frame;
        }
      }
      Log(Encoded(permitted, jpeg), signal, before);
    }

    method StreamFails() returns (signal: Signal)
      requires Valid() && Can(View(), NativeError)
      modifies this
      ensures Took(NativeError, signal)
    {
      ghost var before := View();
      native := Halt(native);
      signal := Quiet;
      if !stopped {
        Halts();
        signal := Lost;
      }
      Log(NativeError, signal, before);
    }
  }
}
