/**
 What the helper promises the person at the Mac (docs/macos-display-helper.md), for every reachable
 state and every continuation of a run.
 */
module RuntimeGuarantees {
  import opened Outcomes
  import opened RequestRate
  import opened RuntimeMachine
  import opened RuntimeInvariant
  import opened RuntimeSteps
  import opened RuntimeTheorems
  import Input = InputLedger
  import InputRuns
  import Life = CaptureLife

  // ----- Shares -----

  /** The limits, and who may hold what, in every reachable state. */
  lemma LimitsHold(m: Machine)
    requires Reached(m)
    ensures |m.connections| <= 16 && |m.reservations| <= 4 && Sum(m.reservations) <= 16_777_216
    ensures m.captures == m.inputs.Keys && m.reservations.Keys == m.captures + m.pending
    ensures m.captures + m.pending + m.rates.Keys <= m.connections
  {
    hide Tasks, Devices, Rates;
    ReachedInv(m);
  }

  /** However a connection was closed, every share it had is free and its input left nothing pressed. */
  lemma ClosedHoldsNothing(m: Machine, id: Id)
    requires Reached(m) && id !in m.connections
    ensures id !in m.captures && id !in m.inputs && id !in m.reservations && id !in m.pending && id !in m.rates
    ensures id in m.objects ==> m.objects[id].stopped
    ensures Input.Replay(Input.IDLE, Project(m.posted, id)) == Input.IDLE
  {
    hide Limits, Rates;
    ReachedInv(m);
    assert id !in m.inputs.Keys && id !in m.reservations.Keys && id !in m.rates.Keys;
    assert Balances(m.layout, LedgerOf(m, id), Project(m.posted, id));
  }

  /** A connection past its deadline has a capture that has started. */
  lemma PastDeadlineHasStarted(m: Machine, id: Id)
    requires Reached(m) && id in m.connections && id !in m.deadlines
    ensures id in m.captures && id !in m.pending && id !in m.starts
    ensures id in m.objects && m.objects[id].phase.Started? && !m.objects[id].stopped
  {
    hide Shares, Devices, Rates;
    ReachedInv(m);
  }

  /**
   Once its start and its stop tasks are done, the capture of a closed connection has no running
   stream and no timer, wherever closing, disabling and losing permission fell around the start.
   */
  lemma OrphansSettle(m: Machine, id: Id)
    requires Reached(m) && id in m.objects && id !in m.connections && Life.Settled(m.objects[id])
    ensures var c := m.objects[id]; !c.native.Running? && !c.native.Pending? && !c.timer && !c.held
  {
    hide Limits, Devices, Rates;
    ReachedInv(m);
  }

  // ----- Input -----

  function Events(posted: seq<(Id, Input.Event)>): seq<Input.Event> {
    seq(|posted|, i requires 0 <= i < |posted| => posted[i].1)
  }

  lemma EventsSnoc(posted: seq<(Id, Input.Event)>)
    requires posted != []
    ensures Events(posted) == Events(posted[..|posted| - 1]) + [posted[|posted| - 1].1]
  {
  }

  lemma NoEvents(posted: seq<(Id, Input.Event)>)
    ensures posted == [] ==> Events(posted) == []
  {
  }

  ghost predicate KeyFromSome(posted: seq<(Id, Input.Event)>, h: (Input.Pid, Input.Code)) {
    exists id :: h in Input.Replay(Input.IDLE, Project(posted, id)).keys
  }

  ghost predicate ButtonFromSome(posted: seq<(Id, Input.Event)>, b: Input.Button) {
    exists id :: b in Input.Replay(Input.IDLE, Project(posted, id)).buttons
  }

  /** A key the system believes is held was left so by the events of some one input. */
  lemma {:induction false} KeyHeldBySome(posted: seq<(Id, Input.Event)>, h: (Input.Pid, Input.Code))
    requires h in Input.Replay(Input.IDLE, Events(posted)).keys
    ensures KeyFromSome(posted, h)
  {
    if posted == [] {
      NoEvents(posted);
    } else {
      var front, last := posted[..|posted| - 1], posted[|posted| - 1];
      EventsSnoc(posted);
      Input.ReplaySnoc(Input.IDLE, Events(front), last.1);
      if h in Input.Replay(Input.IDLE, Events(front)).keys { KeyHeldBySome(front, h); }
      KeyHolder(front, last, h);
      assert front + [last] == posted;
    }
  }

  lemma {:induction false} ButtonHeldBySome(posted: seq<(Id, Input.Event)>, b: Input.Button)
    requires b in Input.Replay(Input.IDLE, Events(posted)).buttons
    ensures ButtonFromSome(posted, b)
  {
    if posted == [] {
      NoEvents(posted);
    } else {
      var front, last := posted[..|posted| - 1], posted[|posted| - 1];
      EventsSnoc(posted);
      Input.ReplaySnoc(Input.IDLE, Events(front), last.1);
      if b in Input.Replay(Input.IDLE, Events(front)).buttons { ButtonHeldBySome(front, b); }
      ButtonHolder(front, last, b);
      assert front + [last] == posted;
    }
  }

  lemma ProjectSnoc(front: seq<(Id, Input.Event)>, last: (Id, Input.Event), id: Id)
    ensures Project(front + [last], id) == Project(front, id) + if last.0 == id then [last.1] else []
    ensures last.0 == id ==> Input.Replay(Input.IDLE, Project(front + [last], id))
                             == Input.Observe(Input.Replay(Input.IDLE, Project(front, id)), last.1)
    ensures last.0 != id ==> Project(front + [last], id) == Project(front, id)
  {
    assert (front + [last])[..|front|] == front;
    if last.0 == id { Input.ReplaySnoc(Input.IDLE, Project(front, id), last.1); }
  }

  lemma KeyHolder(front: seq<(Id, Input.Event)>, last: (Id, Input.Event), h: (Input.Pid, Input.Code))
    requires h in Input.Observe(Input.Replay(Input.IDLE, Events(front)), last.1).keys
    requires h in Input.Replay(Input.IDLE, Events(front)).keys ==> KeyFromSome(front, h)
    ensures KeyFromSome(front + [last], h)
  {
    hide Input.Replay, Project;
    if h in Input.Replay(Input.IDLE, Events(front)).keys {
      var id :| h in Input.Replay(Input.IDLE, Project(front, id)).keys;
      ProjectSnoc(front, last, id);
      assert h in Input.Replay(Input.IDLE, Project(front + [last], id)).keys;
    } else {
      ProjectSnoc(front, last, last.0);
      assert h in Input.Replay(Input.IDLE, Project(front + [last], last.0)).keys;
    }
  }

  lemma ButtonHolder(front: seq<(Id, Input.Event)>, last: (Id, Input.Event), b: Input.Button)
    requires b in Input.Observe(Input.Replay(Input.IDLE, Events(front)), last.1).buttons
    requires b in Input.Replay(Input.IDLE, Events(front)).buttons ==> ButtonFromSome(front, b)
    ensures ButtonFromSome(front + [last], b)
  {
    hide Input.Replay, Project;
    if b in Input.Replay(Input.IDLE, Events(front)).buttons {
      var id :| b in Input.Replay(Input.IDLE, Project(front, id)).buttons;
      ProjectSnoc(front, last, id);
      assert b in Input.Replay(Input.IDLE, Project(front + [last], id)).buttons;
    } else {
      ProjectSnoc(front, last, last.0);
      assert b in Input.Replay(Input.IDLE, Project(front + [last], last.0)).buttons;
    }
  }

  /**
   Over all connections together: a key whose last event is key-down is the code of a symbol held by
   the input of an open connection, and goes to that input's target process.
   */
  lemma NoKeyIsStuck(m: Machine, pid: Input.Pid, code: Input.Code)
    requires Reached(m) && InputRuns.LastIsDown(Events(m.posted), pid, code)
    ensures exists id :: id in m.inputs && id in m.connections
                         && m.inputs[id].ledger.target == Some(pid) && code in m.inputs[id].ledger.keys.Values
  {
    hide Limits, Tasks, Rates, Input.Replay, Project;
    ReachedInv(m);
    InputRuns.LastIsDownReplays(Events(m.posted), pid, code);
    KeyHeldBySome(m.posted, (pid, code));
    var id :| (pid, code) in Input.Replay(Input.IDLE, Project(m.posted, id)).keys;
    assert Balances(m.layout, LedgerOf(m, id), Project(m.posted, id));
    assert id in m.inputs.Keys;
  }

  // ----- Consent -----

  /** Consent off: nothing captured, controlled, reserved or pending, and nothing left pressed anywhere. */
  lemma WithoutConsentEverythingIsOff(m: Machine)
    requires Reached(m) && !m.enabled
    ensures m.captures == {} && m.inputs == map[] && m.reservations == map[] && m.pending == {}
    ensures forall id :: id in m.objects ==> m.objects[id].stopped
    ensures forall pid, code :: !InputRuns.LastIsDown(Events(m.posted), pid, code)
    ensures Input.Replay(Input.IDLE, Events(m.posted)).buttons == {}
  {
    hide Limits, Rates, Input.Replay, Project, Life.Sound;
    ReachedInv(m);
    assert m.inputs.Keys == {} && m.reservations.Keys == {};
    forall pid, code ensures !InputRuns.LastIsDown(Events(m.posted), pid, code) {
      if InputRuns.LastIsDown(Events(m.posted), pid, code) { NoKeyIsStuck(m, pid, code); }
    }
    forall id ensures Input.Replay(Input.IDLE, Project(m.posted, id)) == Input.IDLE {
      assert Balances(m.layout, LedgerOf(m, id), Project(m.posted, id));
    }
    forall b ensures b !in Input.Replay(Input.IDLE, Events(m.posted)).buttons {
      if b in Input.Replay(Input.IDLE, Events(m.posted)).buttons { ButtonHeldBySome(m.posted, b); }
    }
  }

  /** The messages sent on one connection. */
  function Sent(wire: seq<(Id, Message)>, id: Id): seq<Message> {
    if wire == [] then []
    else
      var last := wire[|wire| - 1];
      Sent(wire[..|wire| - 1], id) + if last.0 == id then [last.1] else []
  }

  lemma {:induction false} SentUnchanged(before: seq<(Id, Message)>, after: seq<(Id, Message)>, open: set<Id>, enabled: bool, id: Id)
    requires AddsWire(before, after, open, enabled) && id !in open
    ensures Sent(after, id) == Sent(before, id)
    decreases |after|
  {
    if |after| == |before| {
      assert after == before;
    } else {
      var front := after[..|after| - 1];
      assert AddsWire(before, front, open, enabled) by {
        assert forall k :: |before| <= k < |front| ==> front[k] == after[k];
      }
      SentUnchanged(before, front, open, enabled, id);
      assert after[|after| - 1].0 in open;
    }
  }

  lemma {:induction false} ProjectUnchanged(before: seq<(Id, Input.Event)>, after: seq<(Id, Input.Event)>, open: set<Id>, id: Id)
    requires AddsPosted(before, after, open) && id !in open
    ensures Project(after, id) == Project(before, id)
    decreases |after|
  {
    if |after| == |before| {
      assert after == before;
    } else {
      var front := after[..|after| - 1];
      assert AddsPosted(before, front, open) by {
        assert forall k :: |before| <= k < |front| ==> front[k] == after[k];
      }
      ProjectUnchanged(before, front, open, id);
      assert after[|after| - 1].0 in open;
    }
  }

  /** Nothing more happens on behalf of a connection. */
  ghost predicate Finished(m: Machine, r: Machine, id: Id) {
    && id in r.used && id !in r.connections
    && (id in r.objects ==> id in m.objects)
    && Sent(r.wire, id) == Sent(m.wire, id)
    && Project(r.posted, id) == Project(m.posted, id)
  }

  lemma StepFinished(m: Machine, e: Event, id: Id)
    requires Inv(m) && Can(m, e) && id in m.used && id !in m.connections
    ensures Finished(m, Step(m, e), id)
  {
    hide Inv, Can, Step, AddsWire, AddsPosted, Sent, Project;
    StepExtends(m, e);
    SentUnchanged(m.wire, Step(m, e).wire, m.connections, m.enabled, id);
    ProjectUnchanged(m.posted, Step(m, e).posted, m.connections, id);
    assert id in Step(m, e).objects ==> id in Step(m, e).objects.Keys;
  }

  /**
   A closed connection is gone for good: no capture or input is ever created for it, no message is sent
   on it and no event posted for it, even if consent is given again meanwhile.
   */
  lemma {:induction false} GoneForGood(m: Machine, events: seq<Event>, id: Id)
    requires Inv(m) && Consented(m) && Lawful(m, events) && id in m.used && id !in m.connections
    ensures Finished(m, Run(m, events), id)
    decreases |events|
  {
    hide Inv, Consented, Step, Can, Sent, Project;
    if events != [] {
      StepFinished(m, events[0], id);
      StepKeeps(m, events[0]);
      StepConsented(m, events[0]);
      GoneForGood(Step(m, events[0]), events[1..], id);
    }
  }

  /**
   A start suspended before the helper was disabled creates nothing when it resumes, whatever
   happens in between; re-enabling does not revive it.
   */
  lemma DisableEndsSuspendedStarts(m: Machine, ids: seq<Id>, hand: Hand, events: seq<Event>, id: Id)
    requires Reached(m) && Can(m, Disable(ids, hand)) && Lawful(Step(m, Disable(ids, hand)), events)
    requires id in m.starts && m.starts[id].Verifying?
    ensures var off := Step(m, Disable(ids, hand));
            var r := Run(off, events);
            && id !in r.connections && id !in r.objects && id !in r.captures && id !in r.inputs
            && id !in r.pending && id !in r.reservations
            && Sent(r.wire, id) == Sent(off.wire, id)
  {
    hide Inv, Consented, Step, Run, Lawful, Sent, Project, Walks;
    ReachedInv(m);
    DisableCloses(m, ids, hand, id);
    var off := Step(m, Disable(ids, hand));
    StepKeeps(m, Disable(ids, hand));
    StepConsented(m, Disable(ids, hand));
    GoneForGood(off, events, id);
    RunKeeps(off, events);
    NotOpen(Run(off, events), id);
  }

  lemma DisableCloses(m: Machine, ids: seq<Id>, hand: Hand, id: Id)
    requires Inv(m) && Can(m, Disable(ids, hand)) && id in m.starts
    ensures var off := Step(m, Disable(ids, hand));
            && off.connections == {} && id in off.used && (m.starts[id].Verifying? ==> id !in off.objects)
  {
    hide CloseAll, Limits, Devices, Rates, Objects, Timely, ListsAll, AddsWire, AddsPosted;
    var off := m.(enabled := false);
    EnabledKeeps(m, false);
    ListsAllFrame(m, off, ids);
    AllClosed(off, ids, hand);
    CloseAllShrinks(off, ids, hand);
    assert id in m.starts.Keys;
    assert id in CloseAll(off, ids, hand).objects <==> id in CloseAll(off, ids, hand).objects.Keys;
  }

  lemma NotOpen(m: Machine, id: Id)
    requires Inv(m) && id !in m.connections
    ensures id !in m.captures && id !in m.inputs && id !in m.pending && id !in m.reservations
  {
    hide Limits, Tasks, Devices, Rates;
    assert id !in m.inputs.Keys && id !in m.reservations.Keys;
  }

  /** Events among which the user does not enable the helper. */
  predicate NoEnable(events: seq<Event>) {
    forall k :: 0 <= k < |events| ==> events[k] != Enable(true)
  }

  predicate NoneLive(wire: seq<(Id, Message)>, from: nat) {
    forall k :: from <= k < |wire| ==> !Live(wire[k].1)
  }

  /** From disabling until the user enables again, no frame and no start confirmation is sent to anyone. */
  lemma {:induction false} SilentWithoutConsent(m: Machine, events: seq<Event>)
    requires Inv(m) && Consented(m) && !m.enabled && Lawful(m, events) && NoEnable(events)
    ensures var r := Run(m, events);
            !r.enabled && r.captures == {} && m.wire <= r.wire && NoneLive(r.wire, |m.wire|)
    decreases |events|
  {
    hide Inv, Step, Can;
    if events != [] {
      var e := events[0];
      StepExtends(m, e);
      StepKeeps(m, e);
      StepConsented(m, e);
      OnlyEnableEnables(m, e);
      SilentWithoutConsent(Step(m, e), events[1..]);
      var r := Run(m, events);
      assert forall k :: |m.wire| <= k < |Step(m, e).wire| ==> r.wire[k] == Step(m, e).wire[k];
    }
  }

  lemma OnlyEnableEnables(m: Machine, e: Event)
    requires Inv(m) && Can(m, e) && !m.enabled && e != Enable(true)
    ensures !Step(m, e).enabled
  {
    hide Inv, CloseAll, Handle, AfterVerify, CaptureProgress, AfterStart, AtDeadline, AcceptConnection, Close, Walks, ListsAll;
    if Step(m, e).enabled { OnlyTheUserConsents(m, e); CloseAllOff(m, e); }
  }

  lemma CloseAllOff(m: Machine, e: Event)
    requires Can(m, e) && e.Disable?
    ensures !Step(m, e).enabled
  {
    hide Walks, ListsAll, AddsWire, AddsPosted;
    CloseAllShrinks(m.(enabled := false), e.ids, e.hand);
  }

  // ----- Rate -----

  /** In any interval, one connection has at most 200 * (ceil(span) + 1) requests processed. */
  lemma RequestsAreBounded(m: Machine, id: Id, from: real, span: real)
    requires Reached(m) && span >= 0.0
    ensures |Within(Times(m.served, id), from, span)| <= 200 * (Ceiling(span) + 1)
  {
    hide Shares, Tasks, Devices, Served, Times;
    ReachedInv(m);
    assert Meters(Times(m.served, id), m.clock, id in m.connections, id in m.used, RateOf(m, id));
    RateBound(Times(m.served, id), from, span);
  }
}
