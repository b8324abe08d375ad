/** What holds over every run of the helper's runtime, for every interleaving and every environment. */
module RuntimeTheorems {
  import opened Outcomes
  import opened RequestRate
  import opened HelperProtocol
  import opened RuntimeMachine
  import opened RuntimeInvariant
  import opened RuntimeSteps
  import Input = InputLedger
  import InputRuns
  import Life = CaptureLife

  // ----- One step -----

  lemma CreateExtends(m: Machine, id: Id, ok: bool, located: bool, granted: bool, reply: Reply, hand: Hand)
    requires m.connections <= m.used && id in m.starts && m.starts[id].Verifying?
    ensures var r := AfterVerify(m, id, ok, located, granted, reply, hand); Extends(m, r) && KeepsConsent(m, r)
  {
    hide Fail, Shrinks, Life.Step;
    var returned := m.(starts := m.starts - {id});
    FailShrinks(returned, id, reply, hand);
    ShrinksFrom(m, returned, Fail(returned, id, reply, hand));
  }

  lemma ProgressExtends(m: Machine, id: Id, e: Life.Event, reply: Reply, hand: Hand)
    requires Inv(m) && Can(m, Progress(id, e, reply, hand)) && m.connections <= m.used
    ensures var r := CaptureProgress(m, id, e, reply, hand); Extends(m, r) && KeepsConsent(m, r)
  {
    hide Inv, Life.Step, Life.Sound, Life.Can, Send, Fail, Shrinks, Extends, KeepsConsent;
    ObjectSound(m, id);
    CaptureStepShape(m.objects[id], e);
    var o := Life.Step(m.objects[id], e);
    var moved := m.(objects := m.objects[id := o.next]);
    assert moved.objects.Keys == m.objects.Keys;
    match o.signal
    case Quiet =>
      ShrinksReflexive(moved);
      ShrinksFrom(m, moved, moved);
    case Frame =>
      SendShrinks(moved, id, FrameReply, reply, hand);
      ShrinksFrom(m, moved, Send(moved, id, FrameReply, reply, hand));
    case Lost =>
      FailShrinks(moved, id, reply, hand);
      ShrinksFrom(m, moved, Fail(moved, id, reply, hand));
  }

  lemma StartReturnsExtends(m: Machine, id: Id, reply: Reply, hand: Hand)
    requires Can(m, StartReturns(id, reply, hand)) && m.connections <= m.used
    ensures var r := AfterStart(m, id, reply, hand); Extends(m, r) && KeepsConsent(m, r)
  {
    hide Send, Fail, Shrinks, Life.StopNow, Extends, KeepsConsent;
    var returned := m.(starts := m.starts - {id});
    if m.objects[id].phase.Threw? {
      FailShrinks(returned, id, reply, hand);
      ShrinksFrom(m, returned, Fail(returned, id, reply, hand));
    } else if !Allowed(m, id) {
      var r := returned.(objects := m.objects[id := Life.StopNow(m.objects[id])]);
      assert r.objects.Keys == m.objects.Keys;
      ShrinksReflexive(r);
      ShrinksFrom(m, r, r);
    } else {
      var confirmed := returned.(pending := m.pending - {id});
      SendShrinks(confirmed, id, StartedReply, reply, hand);
      ShrinksFrom(m, confirmed, Send(confirmed, id, StartedReply, reply, hand));
    }
  }

  lemma StepExtends(m: Machine, e: Event)
    requires Inv(m) && Can(m, e)
    ensures Extends(m, Step(m, e))
    ensures e.Enable? || e.Disable? || KeepsConsent(m, Step(m, e))
  {
    hide Inv, Handle, AfterVerify, CaptureProgress, AfterStart, Close, CloseAll, Extends, KeepsConsent, Shrinks, Walks, ListsAll;
    InputsOpen(m);
    match e
    case Accept(id) => AcceptExtends(m, id);
    case PeerClose(id, hand) => CloseShrinks(m, id, hand); ShrinksExtends(m, Close(m, id, hand));
    case Incoming(id, command, env) =>
      var ticked := m.(clock := env.now);
      ClockKeeps(m, env.now);
      IncomingExtends(ticked, id, command, env);
      ClockIrrelevant(m, ticked, Handle(ticked, id, command, env));
    case Verified(id, ok, located, granted, reply, hand) => CreateExtends(m, id, ok, located, granted, reply, hand);
    case Progress(id, event, reply, hand) => ProgressExtends(m, id, event, reply, hand);
    case StartReturns(id, reply, hand) => StartReturnsExtends(m, id, reply, hand);
    case Deadline(id, hand) =>
      var fired := m.(deadlines := m.deadlines - {id});
      CloseShrinks(fired, id, hand);
      ShrinksReflexive(fired);
      ShrinksFrom(m, fired, Step(m, e));
    case Enable(listening) => EnableExtends(m, m.(enabled := true));
    case Disable(ids, hand) =>
      var off := m.(enabled := false);
      CloseAllShrinks(off, ids, hand);
      ShrinksFrom(m, off, CloseAll(off, ids, hand));
    case Shutdown(ids, hand) => CloseAllShrinks(m, ids, hand); ShrinksExtends(m, CloseAll(m, ids, hand));
  }

  lemma ClockIrrelevant(m: Machine, ticked: Machine, r: Machine)
    requires ticked == m.(clock := ticked.clock) && Extends(ticked, r) && KeepsConsent(ticked, r)
    ensures Extends(m, r) && KeepsConsent(m, r)
  {
  }

  lemma AcceptExtends(m: Machine, id: Id)
    requires id !in m.used && m.connections <= m.used
    ensures Extends(m, AcceptConnection(m, id)) && KeepsConsent(m, AcceptConnection(m, id))
  {
    AcceptFields(m, id);
  }

  lemma EnableExtends(m: Machine, r: Machine)
    requires m.connections <= m.used && r == m.(enabled := true)
    ensures Extends(m, r) && Extends(m, m)
  {
  }

  /** Disabling closes every connection, and with the last one nothing is captured or pending. */
  lemma AllClosed(m: Machine, ids: seq<Id>, hand: Hand)
    requires Inv(m) && ListsAll(m, ids) && Walks(hand)
    ensures var r := CloseAll(m, ids, hand);
            r.connections == {} && r.captures == {} && r.pending == {} && r.inputs == map[] && r.reservations == map[]
  {
    hide CloseAll, Limits, Tasks, Devices, Rates, AddsWire, AddsPosted;
    CloseAllKeeps(m, ids, hand);
    CloseAllShrinks(m, ids, hand);
    var r := CloseAll(m, ids, hand);
    assert m.connections <= set id | id in ids;
    assert r.connections == {};
    assert r.inputs.Keys == {} && r.reservations.Keys == {};
  }

  /** Every event keeps the invariant. */
  lemma StepKeeps(m: Machine, e: Event)
    requires Inv(m) && Consented(m) && Can(m, e)
    ensures Inv(Step(m, e))
  {
    hide Inv, Handle, AfterVerify, CaptureProgress, AfterStart, AtDeadline, AcceptConnection, Close, CloseAll, Consented, Walks, ListsAll;
    match e
    case Accept(id) => AcceptKeeps(m, id);
    case PeerClose(id, hand) => CloseKeeps(m, id, hand);
    case Incoming(id, command, env) =>
      ClockKeeps(m, env.now);
      HandleKeeps(m.(clock := env.now), id, command, env);
    case Verified(id, ok, located, granted, reply, hand) => VerifiedKeeps(m, id, ok, located, granted, reply, hand);
    case Progress(id, event, reply, hand) => ProgressKeeps(m, id, event, reply, hand);
    case StartReturns(id, reply, hand) => StartReturnsKeeps(m, id, reply, hand);
    case Deadline(id, hand) => DeadlineKeeps(m, id, hand);
    case Enable(_) => EnabledKeeps(m, true);
    case Disable(ids, hand) =>
      EnabledKeeps(m, false);
      CloseAllKeeps(m.(enabled := false), ids, hand);
    case Shutdown(ids, hand) => CloseAllKeeps(m, ids, hand);
  }

  /** Every event keeps consent off meaning that everything is off. */
  lemma StepConsented(m: Machine, e: Event)
    requires Inv(m) && Consented(m) && Can(m, e)
    ensures Consented(Step(m, e))
  {
    hide Inv, Handle, AfterVerify, CaptureProgress, AfterStart, AtDeadline, AcceptConnection, Close, CloseAll, Extends, Walks, ListsAll;
    StepExtends(m, e);
    if e.Disable? {
      EnabledKeeps(m, false);
      ListsAllFrame(m, m.(enabled := false), e.ids);
      AllClosed(m.(enabled := false), e.ids, e.hand);
    }
  }

  lemma ListsAllFrame(m: Machine, r: Machine, ids: seq<Id>)
    requires ListsAll(m, ids) && r.connections == m.connections
    ensures ListsAll(r, ids)
  {
  }

  /** No request, timer or callback changes the stored consent; only the user's two acts do. */
  lemma OnlyTheUserConsents(m: Machine, e: Event)
    requires Inv(m) && Can(m, e) && Step(m, e).enabled != m.enabled
    ensures e == Enable(true) || e.Disable?
  {
    hide Inv, Handle, AfterVerify, CaptureProgress, AfterStart, AtDeadline, AcceptConnection, Close, CloseAll, Extends, Walks, ListsAll;
    StepExtends(m, e);
  }

  // ----- Runs -----

  lemma InitialInv(layout: Input.Layout, enabled: bool)
    ensures Inv(Initial(layout, enabled)) && Consented(Initial(layout, enabled))
  {
  }

  /** The invariant holds at the end of every run, and so at every point of one. */
  lemma {:induction false} RunKeeps(m: Machine, events: seq<Event>)
    requires Inv(m) && Consented(m) && Lawful(m, events)
    ensures Inv(Run(m, events)) && Consented(Run(m, events))
    decreases |events|
  {
    hide Inv, Consented, Step, Can;
    if events != [] {
      StepKeeps(m, events[0]);
      StepConsented(m, events[0]);
      RunKeeps(Step(m, events[0]), events[1..]);
    }
  }

  ghost predicate Reached(m: Machine) {
    exists layout, enabled, events :: Lawful(Initial(layout, enabled), events) && m == Run(Initial(layout, enabled), events)
  }

  lemma ReachedInv(m: Machine)
    requires Reached(m)
    ensures Inv(m) && Consented(m)
  {
    hide Inv, Consented, Initial, Run, Lawful;
    var layout, enabled, events :| Lawful(Initial(layout, enabled), events) && m == Run(Initial(layout, enabled), events);
    InitialInv(layout, enabled);
    RunKeeps(Initial(layout, enabled), events);
  }

  lemma {:induction false} RunSnoc(m: Machine, events: seq<Event>, e: Event)
    requires Lawful(m, events) && Can(Run(m, events), e)
    ensures Lawful(m, events + [e]) && Run(m, events + [e]) == Step(Run(m, events), e)
    decreases |events|
  {
    hide Can, Step;
    if events == [] {
      assert [] + [e] == [e] && [e][1..] == [];
    } else {
      assert (events + [e])[1..] == events[1..] + [e];
      RunSnoc(Step(m, events[0]), events[1..], e);
    }
  }

  lemma ReachedInitially(layout: Input.Layout, enabled: bool)
    ensures Reached(Initial(layout, enabled))
  {
    assert Lawful(Initial(layout, enabled), []) && Run(Initial(layout, enabled), []) == Initial(layout, enabled);
  }

  lemma ReachedNext(m: Machine, e: Event)
    requires Reached(m) && Can(m, e)
    ensures Reached(Step(m, e))
  {
    hide Can, Step, Initial, Run, Lawful;
    var layout, enabled, events :| Lawful(Initial(layout, enabled), events) && m == Run(Initial(layout, enabled), events);
    RunSnoc(Initial(layout, enabled), events, e);
    assert Lawful(Initial(layout, enabled), events + [e]);
  }
}
