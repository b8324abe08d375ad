/**
 What the runtime does for those it serves (native/display-helper/Runtime.swift): exactly which events end a
 connection, and what every request and every completion that does not end it leaves behind.
 */
module RuntimeResponses {
  import opened Outcomes
  import opened RequestRate
  import opened HelperProtocol
  import opened RuntimeMachine
  import opened RuntimeInvariant
  import opened RuntimeSteps
  import opened RuntimeTheorems
  import opened RuntimeSizes
  import Input = InputLedger
  import Laws = InputLaws
  import Life = CaptureLife
  import Starts = CaptureStarts

  // ----- Who is open afterwards -----

  lemma CloseOpen(m: Machine, x: Id, hand: Hand, id: Id)
    ensures id in Close(m, x, hand).connections <==> id in m.connections && id != x
  {
    hide Released, Life.StopNow, Tag;
  }

  lemma SendOpen(m: Machine, x: Id, message: Message, reply: Reply, hand: Hand, id: Id)
    requires id in m.connections
    ensures id in Send(m, x, message, reply, hand).connections <==> id != x || reply.Delivered?
  {
    hide Close;
    CloseOpen(m, x, hand, id);
    CloseOpen(m.(wire := m.wire + [(x, message)]), x, hand, id);
  }

  lemma FailOpen(m: Machine, x: Id, reply: Reply, hand: Hand, id: Id)
    requires id in m.connections
    ensures id in Fail(m, x, reply, hand).connections <==> id != x
  {
    hide Close, Send;
    SendOpen(m, x, ErrorReply, reply, hand, id);
    CloseOpen(Send(m, x, ErrorReply, reply, hand), x, hand, id);
  }

  // ----- Requests that end their connection -----

  /** A valid, permitted start of somebody who holds nothing, within four captures and the budget of pixels. */
  ghost predicate Startable(m: Machine, id: Id, size: Option<(nat, nat)>, env: Env) {
    && size.Some? && env.granted && id !in Holding(m)
    && |Areas(m)| < 4 && Sum(Areas(m)) + size.value.0 * size.value.1 <= 16_777_216
  }

  /** A valid pointer message to a capture whose display is there and permitted, on a pixel of it. */
  predicate Pointable(m: Machine, id: Id, at: Option<(nat, nat, nat)>, env: Env) {
    && id in m.inputs && at.Some? && env.granted && env.bounds.Some?
    && at.value.0 < m.inputs[id].width && at.value.1 < m.inputs[id].height && at.value.2 <= 127
  }

  /** A key message that its input refuses, which blocks the input but does not end the connection. */
  predicate Blocked(m: Machine, id: Id, symbol: Input.Symbol, down: bool, env: Env)
    requires id in m.inputs
  {
    var s := m.inputs[id].ledger;
    || !env.granted || env.bounds.None? || env.focus.None?
    || (Input.Typable(m.layout, symbol) && down && s.target == env.focus && symbol !in s.keys && |s.keys| >= 256)
  }

  predicate Keyable(m: Machine, id: Id, press: Option<(nat, bool)>) {
    id in m.inputs && press.Some? && press.value.0 <= 0xFFFF_FFFF
  }

  /** The answer could not be written out whole. */
  predicate Undelivered(env: Env) {
    !env.reply.Delivered?
  }

  /** Requests that end the connection they came on. */
  ghost predicate Rejected(m: Machine, id: Id, command: Command, env: Env) {
    || (!m.enabled && !command.Status? && !command.RescueCursor?)
    || Busy(Times(m.served, id), env.now)
    || match command
       case Malformed => true
       case Unknown => true
       case Stop => true
       case Status => Undelivered(env)
       case RescueCursor => Undelivered(env)
       case Release => false
       case Start(size) => !Startable(m, id, size, env)
       case Pointer(at) => !Pointable(m, id, at, env)
       case Key(press) => !Keyable(m, id, press) || (Blocked(m, id, press.value.0, press.value.1, env) && Undelivered(env))
  }

  /** The machine once a request has been counted and let through. */
  function Let(m: Machine, id: Id, now: real): Machine {
    var rate := Admit(RateOf(m, id), now);
    m.(clock := now, rates := m.rates[id := rate], served := m.served + [(id, now)])
  }

  lemma AdmittedExact(m: Machine, id: Id, now: real)
    requires Reached(m) && id in m.connections
    ensures Admit(RateOf(m, id), now).count > LIMIT <==> Busy(Times(m.served, id), now)
  {
    hide Shares, Tasks, Devices, Served, Times, Busy;
    ReachedInv(m);
    assert Meters(Times(m.served, id), m.clock, id in m.connections, id in m.used, RateOf(m, id));
    RefusedExact(Times(m.served, id), now);
  }

  /** A request that gets through is dispatched; one that does not closes its connection. */
  lemma HandledExact(m: Machine, id: Id, command: Command, env: Env)
    requires Reached(m) && Can(m, Incoming(id, command, env))
    ensures var r := Step(m, Incoming(id, command, env));
            if (!m.enabled && !command.Status? && !command.RescueCursor?) || command.Malformed? || Busy(Times(m.served, id), env.now)
            then id !in r.connections && r.wire == m.wire
            else r == Dispatch(Let(m, id, env.now), id, command, env)
  {
    hide Dispatch, Close, Admit, Busy, Reached, Walks;
    AdmittedExact(m, id, env.now);
    var ticked := m.(clock := env.now);
    var counted := ticked.(rates := m.rates[id := Admit(RateOf(m, id), env.now)]);
    ClosedSilently(ticked, id, env.hand);
    ClosedSilently(counted, id, env.hand);
  }

  lemma ClosedSilently(m: Machine, id: Id, hand: Hand)
    ensures id !in Close(m, id, hand).connections && Close(m, id, hand).wire == m.wire
  {
    hide Released, Life.StopNow, Tag;
  }

  lemma StartableExact(m: Machine, id: Id, size: Option<(nat, nat)>, env: Env)
    requires Reached(m)
    ensures Startable(m, id, size, env) <==> !StartRefused(Let(m, id, env.now), id, size, env)
  {
    hide Areas, Reached, Sum;
    AreasBounded(m);
  }

  lemma OpenAllowed(m: Machine, id: Id)
    requires Reached(m) && id in m.inputs
    ensures m.enabled && id in m.connections && id in m.captures
  {
    hide Limits, Tasks, Devices, Rates;
    ReachedInv(m);
    assert id in m.inputs.Keys;
  }

  lemma PointableExact(m: Machine, id: Id, at: Option<(nat, nat, nat)>, env: Env)
    requires Reached(m) && id in m.connections
    ensures id in PointerRequest(Let(m, id, env.now), id, at, env).connections <==> Pointable(m, id, at, env)
  {
    hide Reached, Fail, Input.PointerStep, Post, Admit;
    var c := Let(m, id, env.now);
    FailOpen(c, id, env.reply, env.hand, id);
    if id in m.inputs && at.Some? {
      OpenAllowed(m, id);
      var pad := m.inputs[id];
      var bounds := if env.granted then env.bounds else None;
      Laws.PointerExact(pad.ledger, pad.width, pad.height, at.value.0, at.value.1, at.value.2, bounds);
      PostOpen(c, id, Input.PointerStep(pad.ledger, pad.width, pad.height, at.value.0, at.value.1, at.value.2, bounds));
    }
  }

  lemma PostOpen(m: Machine, id: Id, o: Input.Outcome)
    requires id in m.inputs
    ensures Post(m, id, o.next, o.events).connections == m.connections
  {
  }

  /** The key step of a request, and what its input is left with. */
  function KeyOutcome(m: Machine, id: Id, press: (nat, bool), env: Env): Input.Outcome
    requires id in m.inputs && press.0 <= 0xFFFF_FFFF
  {
    var s := m.inputs[id].ledger;
    Input.KeyStep(m.layout, s, press.0, press.1,
                  Input.KeyEnv(env.granted && env.bounds.Some?, env.focus, env.made, env.hand.pick(s.keys.Values), env.hand.cursor))
  }

  lemma BlockedExact(m: Machine, id: Id, press: (nat, bool), env: Env)
    requires id in m.inputs && press.0 <= 0xFFFF_FFFF
    ensures KeyOutcome(m, id, press, env).threw <==> Blocked(m, id, press.0, press.1, env)
  {
    hide Input.KeyStep, Input.Typable;
    var s := m.inputs[id].ledger;
    Laws.KeyThrows(m.layout, s, press.0, press.1,
                   Input.KeyEnv(env.granted && env.bounds.Some?, env.focus, env.made, env.hand.pick(s.keys.Values), env.hand.cursor));
  }

  lemma KeyRequestIs(m: Machine, id: Id, press: (nat, bool), env: Env)
    requires Allowed(m, id) && id in m.inputs && press.0 <= 0xFFFF_FFFF
    ensures var o := KeyOutcome(m, id, press, env);
            var after := Post(m, id, o.next, o.events);
            id in after.inputs && KeyRequest(m, id, Some(press), env)
            == if o.threw then Send(ReleaseInput(after, id, env.hand), id, InputBlocked, env.reply, env.hand) else after
  {
    hide Send, ReleaseInput, Input.KeyStep;
  }

  lemma ReleasedOpen(m: Machine, id: Id, hand: Hand)
    requires id in m.inputs
    ensures ReleaseInput(m, id, hand).connections == m.connections
  {
    hide Released;
  }

  lemma KeyableExact(m: Machine, id: Id, press: Option<(nat, bool)>, env: Env)
    requires Reached(m) && id in m.connections
    ensures id in KeyRequest(Let(m, id, env.now), id, press, env).connections
        <==> Keyable(m, id, press) && !(Blocked(m, id, press.value.0, press.value.1, env) && Undelivered(env))
  {
    hide Reached, Fail, Send, ReleaseInput, Input.KeyStep, Input.Typable, Post, Admit, Blocked;
    var c := Let(m, id, env.now);
    FailOpen(c, id, env.reply, env.hand, id);
    if Keyable(m, id, press) {
      OpenAllowed(m, id);
      var o := KeyOutcome(c, id, press.value, env);
      KeyRequestIs(c, id, press.value, env);
      BlockedExact(m, id, press.value, env);
      PostOpen(c, id, o);
      var after := Post(c, id, o.next, o.events);
      ReleasedOpen(after, id, env.hand);
      SendOpen(ReleaseInput(after, id, env.hand), id, InputBlocked, env.reply, env.hand, id);
    }
  }

  /** A request ends its connection exactly when it is rejected. */
  lemma IncomingEnds(m: Machine, id: Id, command: Command, env: Env)
    requires Reached(m) && Can(m, Incoming(id, command, env))
    ensures id in Step(m, Incoming(id, command, env)).connections <==> !Rejected(m, id, command, env)
  {
    hide Reached, Step, Close, Send, Fail, PointerRequest, KeyRequest, ReleaseInput, StartRefused, Reserve;
    hide Busy, Startable, Pointable, Keyable, Blocked, Admit, Walks;
    HandledExact(m, id, command, env);
    var c := Let(m, id, env.now);
    FailOpen(c, id, env.reply, env.hand, id);
    match command
    case Malformed =>
    case Unknown =>
    case Stop => CloseOpen(c, id, env.hand, id);
    case Status => SendOpen(c, id, StatusReply, env.reply, env.hand, id);
    case RescueCursor => SendOpen(c, id, Rescued, env.reply, env.hand, id);
    case Release => if id in c.inputs { ReleasedOpen(c, id, env.hand); }
    case Start(size) =>
      StartableExact(m, id, size, env);
      if size.Some? { ReservedOpen(c, id, size.value); }
      StartIs(c, id, size, env);
    case Pointer(at) => PointableExact(m, id, at, env);
    case Key(press) => KeyableExact(m, id, press, env);
  }

  lemma ReservedOpen(m: Machine, id: Id, size: (nat, nat))
    ensures Reserve(m, id, size.0 * size.1, Verifying(size.0, size.1)).connections == m.connections
  {
  }

  lemma StartIs(m: Machine, id: Id, size: Option<(nat, nat)>, env: Env)
    ensures !StartRefused(m, id, size, env) ==>
              size.Some? && StartRequest(m, id, size, env) == Reserve(m, id, size.value.0 * size.value.1, Verifying(size.value.0, size.value.1))
    ensures StartRefused(m, id, size, env) ==> StartRequest(m, id, size, env) == Fail(m, id, env.reply, env.hand)
  {
    hide Fail, Reserve;
  }

  // ----- All events that end a connection -----

  /** A capture event that ends the connection: a loss on a live capture, or a frame that could not be sent whole. */
  predicate Unviewed(c: Life.Capture, event: Life.Event, reply: Reply) {
    !c.stopped && (Starts.Loses(event) || (event == Life.Encoded(true, true) && !reply.Delivered?))
  }

  /** The events that end this connection. */
  ghost predicate Ends(m: Machine, e: Event, id: Id) {
    match e
    case Accept(_) => false
    case PeerClose(x, _) => x == id
    case Incoming(x, command, env) => x == id && Rejected(m, id, command, env)
    case Verified(x, ok, located, _, _, _) => x == id && !(ok && located)
    case Progress(x, event, reply, _) => x == id && id in m.objects && Unviewed(m.objects[id], event, reply)
    case StartReturns(x, reply, _) => x == id && id in m.objects && (m.objects[id].phase.Threw? || !reply.Delivered?)
    case Deadline(x, _) => x == id && (id in m.starts || id !in m.objects)
    case Enable(_) => false
    case Disable(_, _) => true
    case Shutdown(_, _) => true
  }

  lemma IncomingOthers(m: Machine, x: Id, command: Command, env: Env, id: Id)
    requires Reached(m) && Can(m, Incoming(x, command, env)) && id in m.connections && id != x
    ensures id in Step(m, Incoming(x, command, env)).connections
  {
    hide Reached, Dispatch, Close, Admit, Busy, Walks;
    var ticked := m.(clock := env.now);
    var counted := ticked.(rates := m.rates[x := Admit(RateOf(m, x), env.now)]);
    CloseOpen(ticked, x, env.hand, id);
    CloseOpen(counted, x, env.hand, id);
    DispatchOthers(Let(m, x, env.now), x, command, env, id);
  }

  lemma DispatchOthers(m: Machine, x: Id, command: Command, env: Env, id: Id)
    requires id in m.connections && id != x
    ensures id in Dispatch(m, x, command, env).connections
  {
    hide Close, Send, Fail, PointerRequest, KeyRequest, ReleaseInput, StartRefused, StartRequest, Reserve;
    FailOpen(m, x, env.reply, env.hand, id);
    CloseOpen(m, x, env.hand, id);
    SendOpen(m, x, StatusReply, env.reply, env.hand, id);
    SendOpen(m, x, Rescued, env.reply, env.hand, id);
    match command
    case Start(size) =>
      StartIs(m, x, size, env);
      if size.Some? { ReservedOpen(m, x, size.value); }
    case Pointer(at) => PointerOthers(m, x, at, env, id);
    case Key(press) => KeyOthers(m, x, press, env, id);
    case Release => if x in m.inputs { ReleasedOpen(m, x, env.hand); }
    case _ =>
  }

  lemma PointerOthers(m: Machine, x: Id, at: Option<(nat, nat, nat)>, env: Env, id: Id)
    requires id in m.connections && id != x
    ensures id in PointerRequest(m, x, at, env).connections
  {
    hide Fail, Post, Input.PointerStep;
    FailOpen(m, x, env.reply, env.hand, id);
    if x in m.inputs && at.Some? {
      var pad := m.inputs[x];
      var bounds := if Allowed(m, x) && env.granted then env.bounds else None;
      PostOpen(m, x, Input.PointerStep(pad.ledger, pad.width, pad.height, at.value.0, at.value.1, at.value.2, bounds));
    }
  }

  lemma KeyOthers(m: Machine, x: Id, press: Option<(nat, bool)>, env: Env, id: Id)
    requires id in m.connections && id != x
    ensures id in KeyRequest(m, x, press, env).connections
  {
    hide Fail, Post, Send, ReleaseInput, Input.KeyStep;
    FailOpen(m, x, env.reply, env.hand, id);
    if x in m.inputs && press.Some? && press.value.0 <= 0xFFFF_FFFF {
      var ledger := m.inputs[x].ledger;
      var o := Input.KeyStep(m.layout, ledger, press.value.0, press.value.1,
                             Input.KeyEnv(Allowed(m, x) && env.granted && env.bounds.Some?, env.focus, env.made,
                                          env.hand.pick(ledger.keys.Values), env.hand.cursor));
      PostOpen(m, x, o);
      PostedInputs(m, x, o.next, o.events);
      var after := Post(m, x, o.next, o.events);
      ReleasedOpen(after, x, env.hand);
      SendOpen(ReleaseInput(after, x, env.hand), x, InputBlocked, env.reply, env.hand, id);
    }
  }

  lemma VerifiedEnds(m: Machine, x: Id, ok: bool, located: bool, granted: bool, reply: Reply, hand: Hand, id: Id)
    requires Reached(m) && x in m.starts && m.starts[x].Verifying? && id in m.connections
    ensures id in AfterVerify(m, x, ok, located, granted, reply, hand).connections <==> !(x == id && !(ok && located))
  {
    hide Reached, Fail, Life.Step, Inv, Consented;
    FailOpen(m.(starts := m.starts - {x}), x, reply, hand, id);
    if x == id {
      ReachedInv(m);
      VerifyingPending(m, id);
      PendingAllowed(m, id);
    }
  }

  lemma PendingAllowed(m: Machine, id: Id)
    requires Consented(m) && id in m.pending
    ensures m.enabled
  {
  }

  lemma ProgressEnds(m: Machine, x: Id, event: Life.Event, reply: Reply, hand: Hand, id: Id)
    requires x in m.objects && id in m.connections
    ensures id in CaptureProgress(m, x, event, reply, hand).connections <==> !(x == id && Unviewed(m.objects[id], event, reply))
  {
    hide Fail, Send, Life.Step;
    var o := Life.Step(m.objects[x], event);
    var moved := m.(objects := m.objects[x := o.next]);
    Starts.SignalsExact(m.objects[x], event);
    LossIsNoFrame(event);
    SendOpen(moved, x, FrameReply, reply, hand, id);
    FailOpen(moved, x, reply, hand, id);
  }

  lemma LossIsNoFrame(event: Life.Event)
    ensures !(Starts.Loses(event) && event == Life.Encoded(true, true))
  {
  }

  lemma ReturnEnds(m: Machine, x: Id, reply: Reply, hand: Hand, id: Id)
    requires Reached(m) && Can(m, StartReturns(x, reply, hand)) && id in m.connections
    ensures id in AfterStart(m, x, reply, hand).connections
        <==> !(x == id && (m.objects[id].phase.Threw? || !reply.Delivered?))
  {
    hide Reached, Fail, Send, Life.StopNow, Inv, Consented, Walks;
    FailOpen(m.(starts := m.starts - {x}), x, reply, hand, id);
    SendOpen(m.(starts := m.starts - {x}, pending := m.pending - {x}), x, StartedReply, reply, hand, id);
    if x == id {
      ReachedInv(m);
      VerifyingPending(m, id);
      PendingAllowed(m, id);
    }
  }

  lemma DeadlineEnds(m: Machine, x: Id, hand: Hand, id: Id)
    requires Reached(m) && id in m.connections
    ensures id in AtDeadline(m, x, hand).connections <==> !(x == id && (id in m.starts || id !in m.objects))
  {
    hide Reached, Close, Limits, Devices, Rates;
    CloseOpen(m.(deadlines := m.deadlines - {x}), x, hand, id);
    ReachedInv(m);
  }

  lemma ListedGone(m: Machine, ids: seq<Id>, hand: Hand, id: Id)
    requires ListsAll(m, ids) && id in m.connections
    ensures id !in CloseAll(m, ids, hand).connections
  {
    CloseAllShrinks(m, ids, hand);
  }

  /**
   An open connection ends at an event exactly when its peer closes it, its request is rejected, its start
   fails, its capture is lost or its answer cannot be sent whole, its deadline finds no finished start, or the
   user disables or quits. No other event, and no event of another connection, ends it.
   */
  lemma EndsExact(m: Machine, e: Event, id: Id)
    requires Reached(m) && Can(m, e) && id in m.connections
    ensures id in Step(m, e).connections <==> !Ends(m, e, id)
  {
    hide Reached, Handle, AfterVerify, CaptureProgress, AfterStart, AtDeadline, AcceptConnection, Close, CloseAll, Walks, ListsAll, Rejected, Unviewed;
    match e
    case Accept(x) => AcceptedOpen(m, x, id);
    case PeerClose(x, hand) => CloseOpen(m, x, hand, id);
    case Incoming(x, command, env) =>
      if x == id { IncomingEnds(m, id, command, env); } else { IncomingOthers(m, x, command, env, id); }
    case Verified(x, ok, located, granted, reply, hand) => VerifiedEnds(m, x, ok, located, granted, reply, hand, id);
    case Progress(x, event, reply, hand) => ProgressEnds(m, x, event, reply, hand, id);
    case StartReturns(x, reply, hand) => ReturnEnds(m, x, reply, hand, id);
    case Deadline(x, hand) => DeadlineEnds(m, x, hand, id);
    case Enable(_) =>
    case Disable(ids, hand) =>
      ListsAllFrame(m, m.(enabled := false), ids);
      ListedGone(m.(enabled := false), ids, hand, id);
    case Shutdown(ids, hand) => ListedGone(m, ids, hand, id);
  }

  lemma AcceptedOpen(m: Machine, x: Id, id: Id)
    requires id in m.connections
    ensures id in AcceptConnection(m, x).connections
  {
    AcceptFields(m, x);
  }

  ghost predicate EndedAlong(m: Machine, events: seq<Event>, id: Id)
    requires Lawful(m, events)
    decreases |events|
  {
    events != [] && (Ends(m, events[0], id) || EndedAlong(Step(m, events[0]), events[1..], id))
  }

  /** Over any run, an open connection is open at the end exactly unless one of those events happened to it. */
  lemma {:induction false} OpenUntilEnded(m: Machine, events: seq<Event>, id: Id)
    requires Reached(m) && Lawful(m, events) && id in m.connections
    ensures id in Run(m, events).connections ==> !EndedAlong(m, events, id)
    ensures id !in Run(m, events).connections ==> EndedAlong(m, events, id)
    decreases |events|
  {
    hide Reached, Step, Can, Ends;
    if events != [] {
      var e := events[0];
      EndsExact(m, e, id);
      ReachedNext(m, e);
      if id in Step(m, e).connections {
        OpenUntilEnded(Step(m, e), events[1..], id);
      } else {
        ReachedInv(m);
        UsedStays(m, e, id);
        ReachedInv(Step(m, e));
        GoneStays(Step(m, e), events[1..], id);
      }
    }
  }

  lemma UsedStays(m: Machine, e: Event, id: Id)
    requires Inv(m) && Can(m, e) && id in m.connections
    ensures id in Step(m, e).used
  {
    hide Inv, Can, Step, AddsWire, AddsPosted;
    StepExtends(m, e);
  }

  lemma {:induction false} GoneStays(m: Machine, events: seq<Event>, id: Id)
    requires Inv(m) && Consented(m) && Lawful(m, events) && id in m.used && id !in m.connections
    ensures id !in Run(m, events).connections
    decreases |events|
  {
    hide Inv, Consented, Step, Can, AddsWire, AddsPosted;
    if events != [] {
      StepExtends(m, events[0]);
      StepKeeps(m, events[0]);
      StepConsented(m, events[0]);
      GoneStays(Step(m, events[0]), events[1..], id);
    }
  }
}
