/**
 What a reservation is for (native/display-helper/Runtime.swift): in every reachable state each reservation is
 the area of the capture it was made for, and that capture has the size the peer asked for.
 */
module RuntimeSizes {
  import opened Outcomes
  import opened RequestRate
  import opened HelperProtocol
  import opened RuntimeMachine
  import opened RuntimeInvariant
  import opened RuntimeSteps
  import opened RuntimeTheorems
  import Input = InputLedger
  import Life = CaptureLife

  /** The size a connection occupies: that of its capture's pad, or that its start is verifying. */
  function SizeOf(m: Machine, id: Id): Option<(nat, nat)> {
    if id in m.captures && id in m.inputs then Some((m.inputs[id].width, m.inputs[id].height))
    else if id in m.pending && id in m.starts && m.starts[id].Verifying? then Some((m.starts[id].width, m.starts[id].height))
    else None
  }

  function Holding(m: Machine): set<Id> {
    m.captures + m.pending
  }

  /** The reservation is the area of that size. */
  ghost predicate Tied(m: Machine, id: Id) {
    id in m.reservations && SizeOf(m, id).Some? && m.reservations[id] == SizeOf(m, id).value.0 * SizeOf(m, id).value.1
  }

  ghost predicate Sized(m: Machine) {
    forall id :: id in Holding(m) ==> Tied(m, id)
  }

  /** What the connection occupies, and what is reserved for it. */
  function ShareOf(m: Machine, id: Id): (Option<(nat, nat)>, Option<nat>) {
    (SizeOf(m, id), if id in m.reservations then Some(m.reservations[id]) else None)
  }

  /** Nobody new holds anything, and nobody's share changed. */
  ghost predicate SameShares(m: Machine, r: Machine) {
    forall id :: id in Holding(r) ==> id in Holding(m) && ShareOf(r, id) == ShareOf(m, id)
  }

  lemma SharesChain(a: Machine, b: Machine, c: Machine)
    requires SameShares(a, b) && SameShares(b, c)
    ensures SameShares(a, c)
  {
    hide ShareOf;
  }

  lemma CloseShares(m: Machine, id: Id, hand: Hand)
    ensures SameShares(m, Close(m, id, hand))
  {
    hide Released, Life.StopNow, Tag;
  }

  lemma SendShares(m: Machine, id: Id, message: Message, reply: Reply, hand: Hand)
    ensures SameShares(m, Send(m, id, message, reply, hand))
  {
    hide Close;
    if id in m.connections {
      CloseShares(m, id, hand);
      var sent := m.(wire := m.wire + [(id, message)]);
      assert SameShares(m, sent);
      CloseShares(sent, id, hand);
      SharesChain(m, sent, Close(sent, id, hand));
    }
  }

  lemma FailShares(m: Machine, id: Id, reply: Reply, hand: Hand)
    ensures SameShares(m, Fail(m, id, reply, hand))
  {
    hide Close, Send, SameShares;
    var sent := Send(m, id, ErrorReply, reply, hand);
    SendShares(m, id, ErrorReply, reply, hand);
    CloseShares(sent, id, hand);
    SharesChain(m, sent, Close(sent, id, hand));
  }

  lemma {:induction false} CloseAllShares(m: Machine, ids: seq<Id>, hand: Hand)
    ensures SameShares(m, CloseAll(m, ids, hand))
  {
    if ids != [] {
      hide Close, SameShares;
      var before := CloseAll(m, ids[..|ids| - 1], hand);
      CloseAllShares(m, ids[..|ids| - 1], hand);
      CloseShares(before, ids[|ids| - 1], hand);
      SharesChain(m, before, Close(before, ids[|ids| - 1], hand));
    }
  }

  lemma PostShares(m: Machine, id: Id, ledger: Input.Ledger, events: seq<Input.Event>)
    requires id in m.inputs
    ensures SameShares(m, Post(m, id, ledger, events))
  {
    hide Tag;
    assert Post(m, id, ledger, events).inputs.Keys == m.inputs.Keys;
  }

  lemma ReleaseShares(m: Machine, id: Id, hand: Hand)
    requires id in m.inputs
    ensures SameShares(m, ReleaseInput(m, id, hand))
  {
    hide Released, Post;
    var o := Released(m.inputs[id].ledger, hand);
    PostShares(m, id, o.next, o.events);
  }

  lemma PointerShares(m: Machine, id: Id, at: Option<(nat, nat, nat)>, env: Env)
    ensures SameShares(m, PointerRequest(m, id, at, env))
  {
    hide Fail, Post, SameShares, Input.PointerStep;
    FailShares(m, id, env.reply, env.hand);
    if id in m.inputs && at.Some? {
      var pad := m.inputs[id];
      var bounds := if Allowed(m, id) && env.granted then env.bounds else None;
      var o := Input.PointerStep(pad.ledger, pad.width, pad.height, at.value.0, at.value.1, at.value.2, bounds);
      PostShares(m, id, o.next, o.events);
    }
  }

  lemma KeyShares(m: Machine, id: Id, press: Option<(nat, bool)>, env: Env)
    ensures SameShares(m, KeyRequest(m, id, press, env))
  {
    hide Fail, Send, Post, ReleaseInput, SameShares, Input.KeyStep;
    FailShares(m, id, env.reply, env.hand);
    if id in m.inputs && press.Some? && press.value.0 <= 0xFFFF_FFFF {
      var ledger := m.inputs[id].ledger;
      var o := Input.KeyStep(m.layout, ledger, press.value.0, press.value.1,
                             Input.KeyEnv(Allowed(m, id) && env.granted && env.bounds.Some?, env.focus, env.made,
                                          env.hand.pick(ledger.keys.Values), env.hand.cursor));
      var after := Post(m, id, o.next, o.events);
      PostShares(m, id, o.next, o.events);
      if o.threw {
        PostedInputs(m, id, o.next, o.events);
        ReleaseShares(after, id, env.hand);
        SharesChain(m, after, ReleaseInput(after, id, env.hand));
        SendShares(ReleaseInput(after, id, env.hand), id, InputBlocked, env.reply, env.hand);
        SharesChain(m, ReleaseInput(after, id, env.hand),
                    Send(ReleaseInput(after, id, env.hand), id, InputBlocked, env.reply, env.hand));
      }
    }
  }

  lemma PostedInputs(m: Machine, id: Id, ledger: Input.Ledger, events: seq<Input.Event>)
    requires id in m.inputs
    ensures id in Post(m, id, ledger, events).inputs
  {
  }

  lemma SharesReflexive(m: Machine)
    ensures SameShares(m, m)
  {
  }

  lemma DispatchShares(m: Machine, id: Id, command: Command, env: Env)
    requires !command.Start?
    ensures SameShares(m, Dispatch(m, id, command, env))
  {
    hide Close, Send, Fail, ReleaseInput, PointerRequest, KeyRequest, SameShares;
    SharesReflexive(m);
    match command
    case Status => SendShares(m, id, StatusReply, env.reply, env.hand);
    case Pointer(at) => PointerShares(m, id, at, env);
    case Key(press) => KeyShares(m, id, press, env);
    case Release => if id in m.inputs { ReleaseShares(m, id, env.hand); }
    case Stop => CloseShares(m, id, env.hand);
    case RescueCursor => SendShares(m, id, Rescued, env.reply, env.hand);
    case Unknown => FailShares(m, id, env.reply, env.hand);
    case Malformed => CloseShares(m, id, env.hand);
  }

  // ----- Whole steps -----

  /** The event is this connection's request for a capture of this size. */
  predicate Asked(e: Event, id: Id, size: (nat, nat)) {
    e.Incoming? && e.id == id && e.command == Start(Some(size))
  }

  /** Whoever holds anything afterwards held the same share before, or has just asked for it and has its area reserved. */
  ghost predicate SharesFrom(m: Machine, e: Event, r: Machine) {
    forall id :: id in Holding(r) ==>
      || (id in Holding(m) && ShareOf(r, id) == ShareOf(m, id))
      || (SizeOf(r, id).Some? && Asked(e, id, SizeOf(r, id).value) && Tied(r, id))
  }

  lemma SameFrom(m: Machine, e: Event, b: Machine, r: Machine)
    requires SameShares(m, b) && SameShares(b, r)
    ensures SharesFrom(m, e, r)
  {
    hide ShareOf, SizeOf;
    SharesChain(m, b, r);
  }

  lemma StartShares(m: Machine, id: Id, size: Option<(nat, nat)>, env: Env, e: Event)
    requires e.Incoming? && e.id == id && e.command == Start(size)
    ensures SharesFrom(m, e, Dispatch(m, id, Start(size), env))
  {
    hide Fail, StartRefused;
    SharesReflexive(m);
    if StartRefused(m, id, size, env) {
      FailShares(m, id, env.reply, env.hand);
      SameFrom(m, e, m, Fail(m, id, env.reply, env.hand));
    } else {
      RefusesHolder(m, id, size, env);
    }
  }

  lemma RefusesHolder(m: Machine, id: Id, size: Option<(nat, nat)>, env: Env)
    requires !StartRefused(m, id, size, env)
    ensures id !in Holding(m) && size.Some?
  {
  }

  lemma IncomingShares(m: Machine, id: Id, command: Command, env: Env, e: Event)
    requires id in m.connections && e.Incoming? && e.id == id && e.command == command
    ensures SharesFrom(m, e, Handle(m, id, command, env))
  {
    hide Dispatch, Close, Admit, SameShares, SharesFrom;
    SharesReflexive(m);
    var rate := Admit(RateOf(m, id), env.now);
    var counted := m.(rates := m.rates[id := rate]);
    var served := counted.(served := m.served + [(id, env.now)]);
    Unrelated(m, counted);
    Unrelated(m, served);
    if !Admitted(m, command) {
      CloseShares(m, id, env.hand);
      SameFrom(m, e, m, Close(m, id, env.hand));
    } else if rate.count > LIMIT {
      CloseShares(counted, id, env.hand);
      SameFrom(m, e, counted, Close(counted, id, env.hand));
    } else if command.Start? {
      StartShares(served, id, command.size, env, e);
      SharesFromServed(m, served, e, Dispatch(served, id, command, env));
    } else {
      DispatchShares(served, id, command, env);
      SameFrom(m, e, served, Dispatch(served, id, command, env));
    }
  }

  /** Rates, times, the clock and the tables of connections are no part of a share. */
  lemma Unrelated(m: Machine, r: Machine)
    requires r == m.(rates := r.rates, served := r.served, clock := r.clock, deadlines := r.deadlines, enabled := r.enabled, objects := r.objects,
                     connections := r.connections, used := r.used)
    ensures SameShares(m, r) && SameShares(r, m)
  {
  }

  lemma SharesFromServed(m: Machine, b: Machine, e: Event, r: Machine)
    requires SameShares(m, b) && SameShares(b, m) && SharesFrom(b, e, r)
    ensures SharesFrom(m, e, r)
  {
    hide ShareOf, SizeOf;
  }

  /** Only open connections hold anything. */
  ghost predicate HoldersOpen(m: Machine) {
    Holding(m) <= m.connections
  }

  lemma ClosedGone(m: Machine, id: Id, hand: Hand)
    requires HoldersOpen(m)
    ensures id !in Holding(Close(m, id, hand)) && HoldersOpen(Close(m, id, hand))
  {
    hide Released, Life.StopNow, Tag;
  }

  lemma FailedGone(m: Machine, id: Id, reply: Reply, hand: Hand)
    requires HoldersOpen(m)
    ensures id !in Holding(Fail(m, id, reply, hand))
  {
    hide Close;
    ClosedGone(m, id, hand);
    ClosedGone(m.(wire := m.wire + [(id, ErrorReply)]), id, hand);
    ClosedGone(m.(wire := m.wire + [(id, ErrorReply)]), id, hand);
    ClosedGone(Send(m, id, ErrorReply, reply, hand), id, hand);
  }

  /** A start that fails gives its share back, and touches no other. */
  lemma FailedShares(m: Machine, id: Id, reply: Reply, hand: Hand)
    requires HoldersOpen(m)
    ensures SameShares(m, Fail(m.(starts := m.starts - {id}), id, reply, hand))
  {
    hide Fail;
    var returned := m.(starts := m.starts - {id});
    FailShares(returned, id, reply, hand);
    FailedGone(returned, id, reply, hand);
    forall x | x != id ensures ShareOf(returned, x) == ShareOf(m, x) {}
  }

  lemma NotAllowedHoldsNothing(m: Machine, id: Id)
    requires HoldersOpen(m) && Consented(m) && !Allowed(m, id)
    ensures id !in Holding(m)
  {
  }

  lemma WithoutStart(m: Machine, r: Machine, id: Id)
    requires id !in Holding(m) && r == m.(starts := m.starts - {id}, objects := r.objects)
    ensures SameShares(m, r)
  {
  }

  /** Creating the capture moves the size from the suspended start to the capture's input. */
  lemma CreatedShares(m: Machine, id: Id, objects: map<Id, Life.Capture>)
    requires id in m.starts && m.starts[id].Verifying? && id in m.pending && id !in m.captures
    ensures var r := m.(
              captures := m.captures + {id}, objects := objects,
              inputs := m.inputs[id := Pad(Input.FRESH, m.starts[id].width, m.starts[id].height)],
              starts := m.starts[id := Capturing]);
            SameShares(m, r)
  {
  }

  lemma VerifyingPending(m: Machine, id: Id)
    requires Inv(m) && id in m.starts && id in m.connections
    ensures id in m.pending && (m.starts[id].Verifying? <==> id !in m.captures)
  {
    hide Limits, Devices, Rates;
  }

  lemma VerifiedShares(m: Machine, id: Id, ok: bool, located: bool, granted: bool, reply: Reply, hand: Hand)
    requires Inv(m) && Consented(m) && id in m.starts && m.starts[id].Verifying?
    ensures SameShares(m, AfterVerify(m, id, ok, located, granted, reply, hand))
  {
    hide Inv, Fail, Life.Step, SameShares, Consented;
    InvOpen(m);
    FailedShares(m, id, reply, hand);
    if ok {
      if !Allowed(m, id) {
        NotAllowedHoldsNothing(m, id);
        WithoutStart(m, m.(starts := m.starts - {id}), id);
      } else if located {
        VerifyingPending(m, id);
        CreatedShares(m, id, m.objects[id := Life.Step(Life.NEW, Life.Begin(granted && Allowed(m, id))).next]);
      }
    }
  }

  lemma InvOpen(m: Machine)
    requires Inv(m)
    ensures HoldersOpen(m)
  {
    hide Limits, Tasks, Devices, Rates;
  }

  lemma ConfirmedShares(m: Machine, id: Id)
    requires id in m.starts ==> (m.starts[id].Verifying? ==> id !in m.pending)
    requires id in m.captures ==> id in m.inputs
    ensures SameShares(m, m.(starts := m.starts - {id}, pending := m.pending - {id}))
  {
  }

  lemma ReturnedShares(m: Machine, id: Id, reply: Reply, hand: Hand)
    requires Inv(m) && Consented(m) && Can(m, StartReturns(id, reply, hand))
    ensures SameShares(m, AfterStart(m, id, reply, hand))
  {
    hide Inv, Send, Fail, Life.StopNow, SameShares, Consented, Walks;
    InvOpen(m);
    if m.objects[id].phase.Threw? {
      FailedShares(m, id, reply, hand);
    } else if !Allowed(m, id) {
      NotAllowedHoldsNothing(m, id);
      WithoutStart(m, m.(starts := m.starts - {id}, objects := m.objects[id := Life.StopNow(m.objects[id])]), id);
    } else {
      var confirmed := m.(starts := m.starts - {id}, pending := m.pending - {id});
      CapturedInputs(m, id);
      ConfirmedShares(m, id);
      SendShares(confirmed, id, StartedReply, reply, hand);
      SharesChain(m, confirmed, Send(confirmed, id, StartedReply, reply, hand));
    }
  }

  lemma CapturedInputs(m: Machine, id: Id)
    requires Inv(m)
    ensures id in m.captures ==> id in m.inputs
  {
    hide Limits, Tasks, Devices, Rates;
    assert id in m.inputs <==> id in m.inputs.Keys;
  }

  lemma ProgressShares(m: Machine, id: Id, event: Life.Event, reply: Reply, hand: Hand, e: Event)
    requires id in m.objects
    ensures SharesFrom(m, e, CaptureProgress(m, id, event, reply, hand))
  {
    hide Life.Step, Send, Fail, SameShares, SharesFrom;
    var moved := m.(objects := m.objects[id := Life.Step(m.objects[id], event).next]);
    Unrelated(m, moved);
    SharesReflexive(m);
    SendShares(moved, id, FrameReply, reply, hand);
    FailShares(moved, id, reply, hand);
    match Life.Step(m.objects[id], event).signal
    case Quiet => SameFrom(m, e, m, moved);
    case Frame => SameFrom(m, e, moved, Send(moved, id, FrameReply, reply, hand));
    case Lost => SameFrom(m, e, moved, Fail(moved, id, reply, hand));
  }

  lemma AcceptShares(m: Machine, id: Id)
    ensures SameShares(m, AcceptConnection(m, id))
  {
    hide SameShares;
    Unrelated(m, AcceptConnection(m, id));
  }

  lemma StepShares(m: Machine, e: Event)
    requires Inv(m) && Consented(m) && Can(m, e)
    ensures SharesFrom(m, e, Step(m, e))
  {
    hide Handle, AfterVerify, CaptureProgress, AfterStart, Close, CloseAll, SameShares, SharesFrom, Walks, ListsAll;
    hide Inv, AcceptConnection;
    SharesReflexive(m);
    match e
    case Accept(id) => AcceptShares(m, id); SameFrom(m, e, m, AcceptConnection(m, id));
    case PeerClose(id, hand) => CloseShares(m, id, hand); SameFrom(m, e, m, Close(m, id, hand));
    case Incoming(id, command, env) =>
      var ticked := m.(clock := env.now);
      Unrelated(m, ticked);
      IncomingShares(ticked, id, command, env, e);
      SharesFromServed(m, ticked, e, Handle(ticked, id, command, env));
    case Verified(id, ok, located, granted, reply, hand) =>
      VerifiedShares(m, id, ok, located, granted, reply, hand);
      SameFrom(m, e, m, AfterVerify(m, id, ok, located, granted, reply, hand));
    case Progress(id, event, reply, hand) =>
      ProgressShares(m, id, event, reply, hand, e);
    case StartReturns(id, reply, hand) =>
      ReturnedShares(m, id, reply, hand);
      SameFrom(m, e, m, AfterStart(m, id, reply, hand));
    case Deadline(id, hand) =>
      var fired := m.(deadlines := m.deadlines - {id});
      Unrelated(m, fired);
      CloseShares(fired, id, hand);
      SharesReflexive(fired);
      SameFrom(m, e, fired, Step(m, e));
    case Enable(listening) =>
      Unrelated(m, Step(m, e));
      SameFrom(m, e, m, Step(m, e));
    case Disable(ids, hand) =>
      var off := m.(enabled := false);
      Unrelated(m, off);
      CloseAllShares(off, ids, hand);
      SameFrom(m, e, off, CloseAll(off, ids, hand));
    case Shutdown(ids, hand) => CloseAllShares(m, ids, hand); SameFrom(m, e, m, CloseAll(m, ids, hand));
  }

  lemma StepSized(m: Machine, e: Event, r: Machine)
    requires Sized(m) && SharesFrom(m, e, r)
    ensures Sized(r)
  {
    forall id | id in Holding(r) ensures Tied(r, id) {
      if id in Holding(m) && ShareOf(r, id) == ShareOf(m, id) { assert Tied(m, id); }
    }
  }

  // ----- Runs -----

  ghost predicate WasAsked(events: seq<Event>, id: Id, size: (nat, nat)) {
    exists k :: 0 <= k < |events| && Asked(events[k], id, size)
  }

  /** Whatever size somebody holds at the end was held at the beginning, or asked for on the way. */
  lemma {:induction false} SizesAlong(m: Machine, events: seq<Event>, id: Id)
    requires Inv(m) && Consented(m) && Sized(m) && Lawful(m, events)
    ensures Sized(Run(m, events))
    ensures id in Holding(Run(m, events)) ==>
              || (id in Holding(m) && SizeOf(m, id) == SizeOf(Run(m, events), id))
              || (SizeOf(Run(m, events), id).Some? && WasAsked(events, id, SizeOf(Run(m, events), id).value))
    decreases |events|
  {
    hide Inv, Consented, Step, Can, SizeOf, Sized;
    if events != [] {
      var e, rest := events[0], events[1..];
      StepShares(m, e);
      StepSized(m, e, Step(m, e));
      StepKeeps(m, e);
      StepConsented(m, e);
      SizesAlong(Step(m, e), rest, id);
      if id in Holding(Step(m, e)) { ShareSize(m, e, Step(m, e), id); }
      var r := Run(m, events);
      if SizeOf(r, id).Some? && WasAsked(rest, id, SizeOf(r, id).value) {
        var k :| 0 <= k < |rest| && Asked(rest[k], id, SizeOf(r, id).value);
        assert events[k + 1] == rest[k];
      }
    }
  }

  lemma ShareSize(m: Machine, e: Event, r: Machine, id: Id)
    requires SharesFrom(m, e, r) && id in Holding(r)
    ensures || (id in Holding(m) && SizeOf(r, id) == SizeOf(m, id))
            || (SizeOf(r, id).Some? && Asked(e, id, SizeOf(r, id).value))
  {
  }

  lemma ReachedSized(m: Machine)
    requires Reached(m)
    ensures Sized(m)
  {
    hide Inv, Consented, Run, Lawful, Sized;
    var layout, enabled, events :| Lawful(Initial(layout, enabled), events) && m == Run(Initial(layout, enabled), events);
    InitialInv(layout, enabled);
    NothingSized(layout, enabled);
    SizesAlong(Initial(layout, enabled), events, 0);
  }

  lemma NothingSized(layout: Input.Layout, enabled: bool)
    ensures Sized(Initial(layout, enabled)) && Holding(Initial(layout, enabled)) == {}
  {
  }

  // ----- The guarantees -----

  /** The area of every capture, and of every size still being verified. */
  function Areas(m: Machine): map<Id, nat> {
    map id | id in Holding(m) && SizeOf(m, id).Some? :: SizeOf(m, id).value.0 * SizeOf(m, id).value.1
  }

  /** Every reservation is the area it was made for, so all captures and starts together stay within the budget. */
  lemma AreasBounded(m: Machine)
    requires Reached(m)
    ensures forall id :: id in m.captures ==>
              id in m.inputs && id in m.reservations && m.reservations[id] == m.inputs[id].width * m.inputs[id].height
    ensures forall id :: id in m.pending && id in m.starts && m.starts[id].Verifying? ==>
              id in m.reservations && m.reservations[id] == m.starts[id].width * m.starts[id].height
    ensures Areas(m) == m.reservations && Sum(Areas(m)) <= 16_777_216 && |Areas(m)| <= 4
  {
    hide Sized, Tasks, Devices, Rates;
    ReachedInv(m);
    ReachedSized(m);
    SizedAreas(m);
    forall id | id in m.captures
      ensures id in m.inputs && id in m.reservations && m.reservations[id] == m.inputs[id].width * m.inputs[id].height
    {
      HolderTied(m, id);
      assert id in m.inputs.Keys;
    }
    forall id | id in m.pending && id in m.starts && m.starts[id].Verifying?
      ensures id in m.reservations && m.reservations[id] == m.starts[id].width * m.starts[id].height
    {
      HolderTied(m, id);
      assert id in m.connections;
      VerifyingPending(m, id);
    }
  }

  lemma HolderTied(m: Machine, id: Id)
    requires Sized(m) && id in Holding(m)
    ensures Tied(m, id)
  {
  }

  lemma SizedAreas(m: Machine)
    requires Sized(m) && m.reservations.Keys == Holding(m)
    ensures Areas(m) == m.reservations
  {
    forall id ensures id in Areas(m) <==> id in m.reservations {
      if id in Holding(m) { HolderTied(m, id); }
      assert id in m.reservations <==> id in m.reservations.Keys;
    }
    forall id | id in m.reservations ensures Areas(m)[id] == m.reservations[id] {
      assert id in m.reservations.Keys;
      HolderTied(m, id);
    }
  }

  /** The size of a capture, and of the input beside it, is one its own connection asked for. */
  lemma SizeWasAsked(layout: Input.Layout, enabled: bool, events: seq<Event>, id: Id)
    requires Lawful(Initial(layout, enabled), events) && id in Run(Initial(layout, enabled), events).captures
    ensures var m := Run(Initial(layout, enabled), events);
            id in m.inputs && WasAsked(events, id, (m.inputs[id].width, m.inputs[id].height))
  {
    hide Inv, Consented, Run, Lawful, Sized, Initial;
    InitialInv(layout, enabled);
    NothingSized(layout, enabled);
    SizesAlong(Initial(layout, enabled), events, id);
    RunKeeps(Initial(layout, enabled), events);
    CapturedInputs(Run(Initial(layout, enabled), events), id);
  }
}
