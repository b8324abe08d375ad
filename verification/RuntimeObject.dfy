/**
 The runtime object (native/display-helper/Runtime.swift). Each segment between awaits takes exactly the
 machine's step, so the object is always in a reachable state and keeps what is proved of those.
 */
module RuntimeObject {
  import opened Outcomes
  import opened RequestRate
  import opened HelperProtocol
  import M = RuntimeMachine
  import Input = InputLedger
  import Invariant = RuntimeInvariant
  import Steps = RuntimeSteps
  import Theorems = RuntimeTheorems
  import Guarantees = RuntimeGuarantees
  import InputRuns
  import Life = CaptureLife

  type Id = M.Id

  class HelperRuntime {
    const layout: Input.Layout
    var enabled: bool
    var used: set<Id>
    var connections: set<Id>
    var captures: set<Id>
    var objects: map<Id, Life.Capture>
    var inputs: map<Id, M.Pad>
    var reservations: map<Id, nat>
    var pending: set<Id>
    var rates: map<Id, Rate>
    var starts: map<Id, M.Task>
    var deadlines: set<Id>
    var clock: real
    var wire: seq<(Id, M.Message)>
    var posted: seq<(Id, Input.Event)>
    var served: seq<(Id, real)>

    constructor (layout: Input.Layout, enabled: bool)
      ensures Valid() && View() == M.Initial(layout, enabled)
    {
      this.layout, this.enabled := layout, enabled;
      used, connections, captures, pending, deadlines := {}, {}, {}, {}, {};
      objects, inputs, reservations, rates, starts := map[], map[], map[], map[], map[];
      clock, wire, posted, served := 0.0, [], [], [];
      new;
      Theorems.ReachedInitially(layout, enabled);
    }

    function View(): M.Machine
      reads this
    {
      M.Machine(layout, enabled, used, connections, captures, objects, inputs, reservations, pending,
                rates, starts, deadlines, clock, wire, posted, served)
    }

    /** The object is where some lawful run of the machine leads. */
    ghost predicate Valid()
      reads this
    {
      Theorems.Reached(View())
    }

    /** Limits kept, shares only of open connections, and nothing at all without consent. */
    ghost predicate Safe()
      reads this
    {
      && |connections| <= 16 && |reservations| <= 4 && M.Sum(reservations) <= 16_777_216
      && captures == inputs.Keys && reservations.Keys == captures + pending
      && captures + pending + rates.Keys <= connections
      && (!enabled ==> captures == {} && inputs == map[] && reservations == map[] && pending == {})
    }

    twostate predicate Took(e: M.Event)
      requires M.Can(old(View()), e)
      reads this
    {
      View() == M.Step(old(View()), e) && Valid() && Safe()
    }

    /** What holds of every object between its segments. */
    lemma AlwaysSafe()
      requires Valid()
      ensures Safe()
      ensures forall pid, code :: InputRuns.LastIsDown(Guarantees.Events(posted), pid, code) ==>
                exists id :: id in inputs && id in connections
                             && inputs[id].ledger.target == Some(pid) && code in inputs[id].ledger.keys.Values
      ensures forall id :: id in connections && id !in deadlines ==> id in captures && id !in pending
      ensures forall id :: id in objects && id !in connections ==> objects[id].stopped
    {
      hide Theorems.Reached, InputRuns.LastIsDown;
      var m := View();
      Guarantees.LimitsHold(m);
      if !enabled { Guarantees.WithoutConsentEverythingIsOff(m); }
      forall pid, code | InputRuns.LastIsDown(Guarantees.Events(posted), pid, code)
        ensures exists id :: id in inputs && id in connections
                             && inputs[id].ledger.target == Some(pid) && code in inputs[id].ledger.keys.Values
      {
        Guarantees.NoKeyIsStuck(m, pid, code);
      }
      forall id | id in connections && id !in deadlines ensures id in captures && id !in pending { Guarantees.PastDeadlineHasStarted(m, id); }
      forall id | id in objects && id !in connections ensures objects[id].stopped { Guarantees.ClosedHoldsNothing(m, id); }
    }

    twostate lemma Taken(e: M.Event)
      requires old(Valid()) && M.Can(old(View()), e) && View() == M.Step(old(View()), e)
      ensures Took(e)
    {
      hide Theorems.Reached, M.Step, M.Can;
      Theorems.ReachedNext(old(View()), e);
      AlwaysSafe();
    }

    method Accept(id: Id)
      requires Valid() && id !in used
      modifies this
      ensures Took(M.Accept(id))
    {
      hide Theorems.Reached;
      used := used + {id};
      if |connections| < M.MAX_CONNECTIONS {
        connections := connections + {id};
        deadlines := deadlines + {id};
      }
      Taken(M.Accept(id));
    }

    method PeerClosed(id: Id, hand: M.Hand)
      requires Valid() && M.Can(View(), M.PeerClose(id, hand))
      modifies this
      ensures Took(M.PeerClose(id, hand)) && id !in connections
    {
      hide Theorems.Reached, M.Close;
      Close(id, hand);
      Taken(M.PeerClose(id, hand));
      assert id !in connections by { Closed(old(View()), id, hand); }
    }

    method Remove(id: Id, hand: M.Hand)
      modifies this
      ensures View() == M.Remove(old(View()), id, hand)
    {
      hide M.Tag, M.Released, Life.StopNow;
      StopInput(id, hand);
      StopCapture(id);
      connections := connections - {id};
      pending := pending - {id};
      reservations := reservations - {id};
      rates := rates - {id};
    }

    method StopInput(id: Id, hand: M.Hand)
      modifies this`inputs, this`posted
      ensures inputs == old(inputs) - {id}
      ensures posted == old(posted) + if id in old(inputs) then M.Tag(id, M.Released(old(inputs)[id].ledger, hand).events) else []
    {
      hide M.Tag, M.Released;
      if id in inputs {
        posted := posted + M.Tag(id, M.Released(inputs[id].ledger, hand).events);
        inputs := inputs - {id};
      } else {
        assert posted + [] == posted && inputs - {id} == inputs;
      }
    }

    method StopCapture(id: Id)
      modifies this`captures, this`objects
      ensures captures == old(captures) - {id}
      ensures objects == if id in old(captures) && id in old(objects) then old(objects)[id := Life.StopNow(old(objects)[id])] else old(objects)
    {
      if id in captures && id in objects {
        objects := objects[id := Life.StopNow(objects[id])];
      }
      captures := captures - {id};
    }

    method Close(id: Id, hand: M.Hand)
      modifies this
      ensures View() == M.Close(old(View()), id, hand)
    {
      if id in connections {
        Remove(id, hand);
      }
    }

    method Send(id: Id, message: M.Message, reply: M.Reply, hand: M.Hand)
      modifies this
      ensures View() == M.Send(old(View()), id, message, reply, hand)
    {
      if id !in connections {
        return;
      }
      if reply != M.Refused {
        wire := wire + [(id, message)];
      }
      if reply != M.Delivered {
        Close(id, hand);
      }
    }

    method Fail(id: Id, reply: M.Reply, hand: M.Hand)
      modifies this
      ensures View() == M.Fail(old(View()), id, reply, hand)
    {
      Send(id, M.ErrorReply, reply, hand);
      Close(id, hand);
    }

    method Reserved() returns (total: nat)
      ensures total == M.Sum(reservations)
    {
      total := 0;
      var rest := reservations;
      while rest != map[]
        invariant total + M.Sum(rest) == M.Sum(reservations)
        decreases rest.Keys
      {
        var id :| id in rest;
        Invariant.SumWithout(rest, id);
        total := total + rest[id];
        rest := rest - {id};
      }
    }

    method StartCommand(id: Id, size: Option<(nat, nat)>, env: M.Env)
      modifies this
      ensures View() == M.StartRequest(old(View()), id, size, env)
    {
      if id in captures || id in pending || size.None? || !env.granted {
        Fail(id, env.reply, env.hand);
        return;
      }
      var pixels := size.value.0 * size.value.1;
      var total := Reserved();
      if |reservations| >= M.MAX_RESERVATIONS || total + pixels > M.PIXEL_BUDGET {
        Fail(id, env.reply, env.hand);
        return;
      }
      reservations := reservations[id := pixels];
      pending := pending + {id};
      starts := starts[id := M.Verifying(size.value.0, size.value.1)];
    }

    method Post(id: Id, ledger: Input.Ledger, events: seq<Input.Event>)
      requires id in inputs
      modifies this`inputs, this`posted
      ensures View() == M.Post(old(View()), id, ledger, events)
    {
      inputs := inputs[id := inputs[id].(ledger := ledger)];
      posted := posted + M.Tag(id, events);
    }

    method PointerCommand(id: Id, at: Option<(nat, nat, nat)>, env: M.Env)
      modifies this
      ensures View() == M.PointerRequest(old(View()), id, at, env)
    {
      if id !in inputs || at.None? {
        Fail(id, env.reply, env.hand);
        return;
      }
      var pad := inputs[id];
      var bounds := if M.Allowed(View(), id) && env.granted then env.bounds else None;
      var o := Input.PointerStep(pad.ledger, pad.width, pad.height, at.value.0, at.value.1, at.value.2, bounds);
      if o.threw {
        Fail(id, env.reply, env.hand);
      } else {
        Post(id, o.next, o.events);
      }
    }

    method KeyCommand(id: Id, press: Option<(nat, bool)>, env: M.Env)
      modifies this
      ensures View() == M.KeyRequest(old(View()), id, press, env)
    {
      if id !in inputs || press.None? || press.value.0 > 0xFFFF_FFFF {
        Fail(id, env.reply, env.hand);
        return;
      }
      var ledger := inputs[id].ledger;
      var permitted := M.Allowed(View(), id) && env.granted && env.bounds.Some?;
      var o := Input.KeyStep(layout, ledger, press.value.0, press.value.1,
                             Input.KeyEnv(permitted, env.focus, env.made, env.hand.pick(ledger.keys.Values), env.hand.cursor));
      Post(id, o.next, o.events);
      if o.threw {
        ReleaseCommand(id, env.hand);
        Send(id, M.InputBlocked, env.reply, env.hand);
      }
    }

    method ReleaseCommand(id: Id, hand: M.Hand)
      modifies this`inputs, this`posted
      ensures View() == if id in old(inputs) then M.ReleaseInput(old(View()), id, hand) else old(View())
    {
      if id in inputs {
        var r := M.Released(inputs[id].ledger, hand);
        Post(id, r.next, r.events);
      }
    }

    method Dispatch(id: Id, command: Command, env: M.Env)
      modifies this
      ensures View() == M.Dispatch(old(View()), id, command, env)
    {
      hide M.Send, M.Fail, M.Close, M.StartRequest, M.PointerRequest, M.KeyRequest, M.ReleaseInput;
      match command
      case Status => Send(id, M.StatusReply, env.reply, env.hand);
      case Start(size) => StartCommand(id, size, env);
      case Pointer(at) => PointerCommand(id, at, env);
      case Key(press) => KeyCommand(id, press, env);
      case Release => ReleaseCommand(id, env.hand);
      case Stop => Close(id, env.hand);
      case RescueCursor => Send(id, M.Rescued, env.reply, env.hand);
      case Unknown => Fail(id, env.reply, env.hand);
      case Malformed => Close(id, env.hand);
    }

    /** One request from a connection, parsed from its raw fields. */
    method Handle(id: Id, request: Request, env: M.Env)
      requires Valid() && M.Can(View(), M.Incoming(id, Parse(request), env))
      modifies this
      ensures Took(M.Incoming(id, Parse(request), env))
    {
      hide Parse, M.Close, M.Dispatch, Admit, Theorems.Reached, M.Walks;
      var command := Parse(request);
      clock := env.now;
      if command.Malformed? || (!enabled && !command.Status? && !command.RescueCursor?) {
        Close(id, env.hand);
      } else {
        var rate := Admit(if id in rates then Some(rates[id]) else None, env.now);
        rates := rates[id := rate];
        if rate.count > LIMIT {
          Close(id, env.hand);
        } else {
          served := served + [(id, env.now)];
          Dispatch(id, command, env);
        }
      }
      Taken(M.Incoming(id, command, env));
    }

    /** The start task resumes from verifying the display. */
    method StartVerified(id: Id, ok: bool, located: bool, granted: bool, reply: M.Reply, hand: M.Hand)
      requires Valid() && M.Can(View(), M.Verified(id, ok, located, granted, reply, hand))
      modifies this
      ensures Took(M.Verified(id, ok, located, granted, reply, hand))
    {
      hide M.Fail, Life.Step, Theorems.Reached, M.Walks;
      var task := starts[id];
      starts := starts - {id};
      if !ok {
        Fail(id, reply, hand);
      } else if enabled && id in connections {
        if !located {
          Fail(id, reply, hand);
        } else {
          CreateCapture(id, task.width, task.height, granted);
          assert starts == old(starts)[id := M.Capturing];
        }
      }
      Taken(M.Verified(id, ok, located, granted, reply, hand));
    }

    method CreateCapture(id: Id, width: nat, height: nat, permitted: bool)
      modifies this`captures, this`inputs, this`objects, this`starts
      ensures View() == old(View()).(
                captures := old(captures) + {id},
                objects := old(objects)[id := Life.Step(Life.NEW, Life.Begin(permitted)).next],
                inputs := old(inputs)[id := M.Pad(Input.FRESH, width, height)],
                starts := old(starts)[id := M.Capturing])
    {
      captures := captures + {id};
      inputs := inputs[id := M.Pad(Input.FRESH, width, height)];
      objects := objects[id := Life.Step(Life.NEW, Life.Begin(permitted)).next];
      starts := starts[id := M.Capturing];
    }

    /** A callback of a capture: its timer, its samples, its encoder, its stream. */
    method CaptureEvent(id: Id, event: Life.Event, reply: M.Reply, hand: M.Hand)
      requires Valid() && M.Can(View(), M.Progress(id, event, reply, hand))
      modifies this
      ensures Took(M.Progress(id, event, reply, hand))
    {
      hide M.Fail, M.Send, Life.Step, Theorems.Reached, M.Walks;
      var signal := MoveCapture(id, event);
      ghost var moved := View();
      Report(id, signal, reply, hand);
      assert moved == old(View()).(objects := old(objects)[id := Life.Step(old(objects)[id], event).next]);
      Taken(M.Progress(id, event, reply, hand));
    }

    method Report(id: Id, signal: Life.Signal, reply: M.Reply, hand: M.Hand)
      modifies this
      ensures View() == match signal
                        case Quiet => old(View())
                        case Frame => M.Send(old(View()), id, M.FrameReply, reply, hand)
                        case Lost => M.Fail(old(View()), id, reply, hand)
    {
      hide M.Fail, M.Send;
      match signal
      case Quiet =>
      case Frame => Send(id, M.FrameReply, reply, hand);
      case Lost => Fail(id, reply, hand);
    }

    method MoveCapture(id: Id, event: Life.Event) returns (signal: Life.Signal)
      requires id in objects
      modifies this`objects
      ensures var o := Life.Step(old(objects)[id], event);
              objects == old(objects)[id := o.next] && signal == o.signal
    {
      var o := Life.Step(objects[id], event);
      objects := objects[id := o.next];
      return o.signal;
    }

    /** The start task resumes when the capture's own start has returned or thrown. */
    method StartReturned(id: Id, reply: M.Reply, hand: M.Hand)
      requires Valid() && M.Can(View(), M.StartReturns(id, reply, hand))
      modifies this
      ensures Took(M.StartReturns(id, reply, hand))
    {
      hide M.Fail, M.Send, Life.StopNow, Theorems.Reached, M.Walks;
      starts := starts - {id};
      if objects[id].phase.Threw? {
        Fail(id, reply, hand);
      } else if !(enabled && id in connections) {
        objects := objects[id := Life.StopNow(objects[id])];
      } else {
        pending := pending - {id};
        Send(id, M.StartedReply, reply, hand);
      }
      Taken(M.StartReturns(id, reply, hand));
    }

    method DeadlineFired(id: Id, hand: M.Hand)
      requires Valid() && M.Can(View(), M.Deadline(id, hand))
      modifies this
      ensures Took(M.Deadline(id, hand))
    {
      hide M.Close, Theorems.Reached, M.Walks;
      deadlines := deadlines - {id};
      if id !in captures || id in pending {
        Close(id, hand);
      }
      Taken(M.Deadline(id, hand));
    }

    /** Consent is stored only once the listener is up. */
    method Enable(listening: bool) returns (threw: bool)
      requires Valid()
      modifies this`enabled
      ensures Took(M.Enable(listening)) && threw == !listening
    {
      hide Theorems.Reached;
      if listening {
        enabled := true;
      }
      Taken(M.Enable(listening));
      return !listening;
    }

    /** Afterwards nobody is connected and nothing is captured, controlled, reserved or pending. */
    method Disable(ids: seq<Id>, hand: M.Hand)
      requires Valid() && M.Can(View(), M.Disable(ids, hand))
      modifies this
      ensures Took(M.Disable(ids, hand))
      ensures !enabled && connections == {} && captures == {} && inputs == map[] && reservations == map[] && pending == {}
    {
      hide M.CloseAll, Theorems.Reached, M.Walks, M.ListsAll;
      enabled := false;
      CloseEach(ids, hand);
      Taken(M.Disable(ids, hand));
      Off(old(View()), ids, hand);
    }

    method Shutdown(ids: seq<Id>, hand: M.Hand)
      requires Valid() && M.Can(View(), M.Shutdown(ids, hand))
      modifies this
      ensures Took(M.Shutdown(ids, hand)) && connections == {}
    {
      hide M.CloseAll, Theorems.Reached, M.Walks, M.ListsAll;
      CloseEach(ids, hand);
      Taken(M.Shutdown(ids, hand));
      Down(old(View()), ids, hand);
    }

    method CloseEach(ids: seq<Id>, hand: M.Hand)
      modifies this
      ensures View() == M.CloseAll(old(View()), ids, hand)
    {
      hide M.Close;
      for i := 0 to |ids|
        invariant View() == M.CloseAll(old(View()), ids[..i], hand)
      {
        Close(ids[i], hand);
        assert ids[..i + 1][..i] == ids[..i];
      }
      assert ids[..|ids|] == ids;
    }
  }

  lemma Closed(m: M.Machine, id: Id, hand: M.Hand)
    ensures id !in M.Close(m, id, hand).connections
  {
  }

  lemma Down(m: M.Machine, ids: seq<Id>, hand: M.Hand)
    requires Theorems.Reached(m) && M.ListsAll(m, ids) && M.Walks(hand)
    ensures M.CloseAll(m, ids, hand).connections == {}
  {
    hide Theorems.Reached, M.CloseAll, Invariant.Inv;
    Theorems.ReachedInv(m);
    Theorems.AllClosed(m, ids, hand);
  }

  lemma Off(m: M.Machine, ids: seq<Id>, hand: M.Hand)
    requires Theorems.Reached(m) && M.ListsAll(m, ids) && M.Walks(hand)
    ensures var r := M.CloseAll(m.(enabled := false), ids, hand);
            !r.enabled && r.connections == {} && r.captures == {} && r.inputs == map[] && r.reservations == map[] && r.pending == {}
  {
    hide Theorems.Reached, M.CloseAll, Invariant.Inv;
    var off := m.(enabled := false);
    Theorems.ReachedInv(m);
    Steps.EnabledKeeps(m, false);
    Theorems.ListsAllFrame(m, off, ids);
    Theorems.AllClosed(off, ids, hand);
    Guarantees.CloseAllOff(m, M.Disable(ids, hand));
  }
}
