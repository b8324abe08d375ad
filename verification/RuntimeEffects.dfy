/**
 What is left when an event did not end its connection (native/display-helper/Runtime.swift): the answer on the
 wire, the input events posted, the share taken, and a started capture at the end of a start that nothing spoils.
 */
module RuntimeEffects {
  import opened Outcomes
  import opened RequestRate
  import opened HelperProtocol
  import opened RuntimeMachine
  import opened RuntimeInvariant
  import opened RuntimeSteps
  import opened RuntimeTheorems
  import opened RuntimeSizes
  import opened RuntimeResponses
  import Input = InputLedger
  import Laws = InputLaws
  import Life = CaptureLife
  import Starts = CaptureStarts

  // ----- Requests -----

  /** The one message a request is answered with, if any. */
  function Answers(m: Machine, id: Id, command: Command, env: Env): seq<(Id, Message)> {
    match command
    case Status => [(id, StatusReply)]
    case RescueCursor => [(id, Rescued)]
    case Key(Some(press)) => if id in m.inputs && press.0 <= 0xFFFF_FFFF && Blocked(m, id, press.0, press.1, env) then [(id, InputBlocked)] else []
    case _ => []
  }

  /** What a request does to its input. */
  function InputOf(m: Machine, id: Id, command: Command, env: Env): Input.Outcome
    requires id in m.inputs
  {
    var pad := m.inputs[id];
    match command
    case Pointer(Some(at)) => Input.PointerStep(pad.ledger, pad.width, pad.height, at.0, at.1, at.2, if env.granted then env.bounds else None)
    case Release => Released(pad.ledger, env.hand)
    case Key(Some(press)) =>
      if press.0 > 0xFFFF_FFFF then Input.Outcome(pad.ledger, [], true)
      else
        var o := KeyOutcome(m, id, press, env);
        if !o.threw then o
        else
          var r := Released(o.next, env.hand);
          Input.Outcome(r.next, o.events + r.events, false)
    case _ => Input.Outcome(pad.ledger, [], false)
  }

  /** The request reached the input of its connection, which then did what an input does. */
  ghost predicate Controls(m: Machine, r: Machine, id: Id, command: Command, env: Env) {
    if id in m.inputs then
      var o := InputOf(m, id, command, env);
      r.posted == m.posted + Tag(id, o.events) && r.inputs == m.inputs[id := m.inputs[id].(ledger := o.next)]
    else r.posted == m.posted && r.inputs == m.inputs
  }

  /** Connections, captures and starts are as before. */
  predicate KeepsShares(m: Machine, r: Machine) {
    && r.connections == m.connections && r.captures == m.captures && r.objects == m.objects && r.deadlines == m.deadlines
    && r.pending == m.pending && r.starts == m.starts && r.reservations == m.reservations && r.enabled == m.enabled
  }

  lemma NothingTagged(m: Machine, id: Id)
    requires id in m.inputs
    ensures m.posted == m.posted + Tag(id, []) && m.inputs == m.inputs[id := m.inputs[id].(ledger := m.inputs[id].ledger)]
  {
    assert Tag(id, []) == [];
  }

  lemma SentWhole(m: Machine, id: Id, message: Message, hand: Hand)
    requires id in m.connections
    ensures Send(m, id, message, Delivered, hand) == m.(wire := m.wire + [(id, message)])
  {
  }

  lemma DispatchedPointer(m: Machine, id: Id, at: (nat, nat, nat), env: Env)
    requires Allowed(m, id) && id in m.inputs && Pointable(m, id, Some(at), env)
    ensures var r := PointerRequest(m, id, Some(at), env);
            KeepsShares(m, r) && Controls(m, r, id, Pointer(Some(at)), env) && r.wire == m.wire && r.served == m.served
  {
    hide Input.PointerStep, Fail;
    var pad := m.inputs[id];
    Laws.PointerExact(pad.ledger, pad.width, pad.height, at.0, at.1, at.2, env.bounds);
  }

  lemma TagJoin(id: Id, a: seq<Input.Event>, b: seq<Input.Event>)
    ensures Tag(id, a + b) == Tag(id, a) + Tag(id, b)
  {
  }

  lemma DispatchedKey(m: Machine, id: Id, press: (nat, bool), env: Env)
    requires Allowed(m, id) && id in m.inputs && press.0 <= 0xFFFF_FFFF
    requires Blocked(m, id, press.0, press.1, env) ==> env.reply.Delivered?
    ensures var r := KeyRequest(m, id, Some(press), env);
            && KeepsShares(m, r) && Controls(m, r, id, Key(Some(press)), env) && r.served == m.served
            && r.wire == m.wire + Answers(m, id, Key(Some(press)), env)
  {
    hide Input.KeyStep, Blocked, Send, Released, Tag;
    var o := KeyOutcome(m, id, press, env);
    KeyRequestIs(m, id, press, env);
    BlockedExact(m, id, press, env);
    if o.threw {
      var after := Post(m, id, o.next, o.events);
      var released := ReleaseInput(after, id, env.hand);
      SentWhole(released, id, InputBlocked, env.hand);
      var q := Released(o.next, env.hand);
      TagJoin(id, o.events, q.events);
      assert m.posted + Tag(id, o.events) + Tag(id, q.events) == m.posted + (Tag(id, o.events) + Tag(id, q.events));
    }
  }

  lemma DispatchedRelease(m: Machine, id: Id, env: Env)
    ensures var r := Dispatch(m, id, Release, env);
            KeepsShares(m, r) && Controls(m, r, id, Release, env) && r.wire == m.wire && r.served == m.served
  {
    hide Released, Tag;
  }

  lemma DispatchedMessage(m: Machine, id: Id, command: Command, env: Env)
    requires id in m.connections && (command.Status? || command.RescueCursor?) && env.reply.Delivered?
    ensures var r := Dispatch(m, id, command, env);
            KeepsShares(m, r) && Controls(m, r, id, command, env) && r.wire == m.wire + Answers(m, id, command, env) && r.served == m.served
  {
    hide Send;
    SentWhole(m, id, StatusReply, env.hand);
    SentWhole(m, id, Rescued, env.hand);
    if id in m.inputs { NothingTagged(m, id); }
  }

  lemma LetAlike(m: Machine, id: Id, now: real)
    ensures var c := Let(m, id, now);
            KeepsShares(m, c) && c.inputs == m.inputs && c.posted == m.posted && c.wire == m.wire && c.layout == m.layout && c.served == m.served + [(id, now)]
  {
    hide Admit;
  }

  lemma ControlsAlike(m: Machine, c: Machine, r: Machine, id: Id, command: Command, env: Env)
    requires c.inputs == m.inputs && c.posted == m.posted && c.layout == m.layout && Controls(c, r, id, command, env)
    ensures Controls(m, r, id, command, env)
    ensures Answers(c, id, command, env) == Answers(m, id, command, env)
  {
    hide Released, Tag, Input.PointerStep, Input.KeyStep, Input.Typable;
  }

  /**
   A request that is not rejected, other than a start, is counted, answered with its one message if it has one,
   and carried out on the input of its connection; nobody's share changes.
   */
  lemma AnsweredExact(m: Machine, id: Id, command: Command, env: Env)
    requires Reached(m) && Can(m, Incoming(id, command, env)) && !Rejected(m, id, command, env) && !command.Start?
    ensures var r := Step(m, Incoming(id, command, env));
            && KeepsShares(m, r) && Controls(m, r, id, command, env)
            && r.wire == m.wire + Answers(m, id, command, env)
            && r.served == m.served + [(id, env.now)]
  {
    hide Reached, Step, Dispatch, PointerRequest, KeyRequest, Busy, Admit, Controls, KeepsShares, Answers, Walks, Pointable, Blocked;
    HandledExact(m, id, command, env);
    LetAlike(m, id, env.now);
    var c := Let(m, id, env.now);
    match command
    case Status => DispatchedMessage(c, id, command, env); Kept(m, c, id, command, env);
    case RescueCursor => DispatchedMessage(c, id, command, env); Kept(m, c, id, command, env);
    case Release => DispatchedRelease(c, id, env); NoAnswer(c, id, command, env); Kept(m, c, id, command, env);
    case Pointer(at) =>
      PointableParts(m, c, id, at, env);
      OpenAllowed(m, id);
      DispatchedPointer(c, id, at.value, env);
      DispatchIs(c, id, command, env);
      NoAnswer(c, id, command, env);
      Kept(m, c, id, command, env);
    case Key(press) =>
      OpenAllowed(m, id);
      BlockedAlike(m, c, id, press.value, env);
      DispatchedKey(c, id, press.value, env);
      DispatchIs(c, id, command, env);
      Kept(m, c, id, command, env);
  }

  lemma DispatchIs(m: Machine, id: Id, command: Command, env: Env)
    ensures command.Pointer? ==> Dispatch(m, id, command, env) == PointerRequest(m, id, command.at, env)
    ensures command.Key? ==> Dispatch(m, id, command, env) == KeyRequest(m, id, command.press, env)
  {
    hide PointerRequest, KeyRequest;
  }

  lemma NoAnswer(m: Machine, id: Id, command: Command, env: Env)
    requires command.Release? || command.Pointer?
    ensures m.wire + Answers(m, id, command, env) == m.wire
  {
  }

  lemma PointableParts(m: Machine, c: Machine, id: Id, at: Option<(nat, nat, nat)>, env: Env)
    requires Pointable(m, id, at, env) && c.inputs == m.inputs
    ensures id in m.inputs && at.Some? && Pointable(c, id, at, env)
  {
  }

  lemma BlockedAlike(m: Machine, c: Machine, id: Id, press: (nat, bool), env: Env)
    requires id in m.inputs && c.inputs == m.inputs && c.layout == m.layout && press.0 <= 0xFFFF_FFFF
    ensures Blocked(c, id, press.0, press.1, env) == Blocked(m, id, press.0, press.1, env)
  {
    hide Input.Typable;
  }

  lemma Kept(m: Machine, c: Machine, id: Id, command: Command, env: Env)
    requires KeepsShares(m, c) && c.inputs == m.inputs && c.posted == m.posted && c.wire == m.wire && c.layout == m.layout
    requires var r := Dispatch(c, id, command, env);
             KeepsShares(c, r) && Controls(c, r, id, command, env) && r.wire == c.wire + Answers(c, id, command, env)
    ensures var r := Dispatch(c, id, command, env);
            KeepsShares(m, r) && Controls(m, r, id, command, env) && r.wire == m.wire + Answers(m, id, command, env)
  {
    hide Dispatch, Controls, Answers;
    ControlsAlike(m, c, Dispatch(c, id, command, env), id, command, env);
  }

  /** A start that is not rejected is reserved at its area and pending, nothing is sent yet, and everyone else is left alone. */
  lemma StartAccepted(m: Machine, id: Id, size: (nat, nat), env: Env)
    requires Reached(m) && Can(m, Incoming(id, Start(Some(size)), env)) && !Rejected(m, id, Start(Some(size)), env)
    ensures id !in Holding(m) && Reserves(m, Step(m, Incoming(id, Start(Some(size)), env)), id, size, env.now)
  {
    hide Reached, Step, StartRefused, Busy, Admit, Walks, Areas, Sum;
    HandledExact(m, id, Start(Some(size)), env);
    LetAlike(m, id, env.now);
    var c := Let(m, id, env.now);
    StartableExact(m, id, Some(size), env);
    StartIs(c, id, Some(size), env);
  }

  predicate Reserves(m: Machine, r: Machine, id: Id, size: (nat, nat), now: real) {
    && r.connections == m.connections && r.captures == m.captures && r.objects == m.objects && r.inputs == m.inputs
    && r.enabled == m.enabled && r.wire == m.wire && r.posted == m.posted && r.deadlines == m.deadlines
    && r.pending == m.pending + {id}
    && r.starts == m.starts[id := Verifying(size.0, size.1)]
    && r.reservations == m.reservations[id := size.0 * size.1]
    && r.served == m.served + [(id, now)]
  }

  /** A rejected start, pointer, key or unknown request is told so before its connection is closed. */
  lemma RejectionTold(m: Machine, id: Id, command: Command, env: Env)
    requires Reached(m) && Can(m, Incoming(id, command, env)) && m.enabled && !Busy(Times(m.served, id), env.now) && env.reply.Delivered?
    requires || command.Unknown?
             || (command.Start? && !Startable(m, id, command.size, env))
             || (command.Pointer? && !Pointable(m, id, command.at, env))
             || (command.Key? && !Keyable(m, id, command.press))
    ensures var r := Step(m, Incoming(id, command, env));
            r.wire == m.wire + [(id, ErrorReply)] && id !in r.connections
  {
    hide Reached, Step, Fail, PointerRequest, KeyRequest, StartRequest, Busy, Admit, Walks, Startable, Pointable, Keyable, StartRefused;
    HandledExact(m, id, command, env);
    LetAlike(m, id, env.now);
    var c := Let(m, id, env.now);
    FailTells(c, id, env.hand);
    DispatchIs(c, id, command, env);
    match command
    case Unknown =>
    case Start(size) => StartableExact(m, id, size, env); StartIs(c, id, size, env);
    case Pointer(at) => PointerRefused(m, c, id, at, env);
    case Key(press) => KeyRefused(m, c, id, press, env);
  }

  lemma FailTells(m: Machine, id: Id, hand: Hand)
    requires id in m.connections
    ensures Fail(m, id, Delivered, hand).wire == m.wire + [(id, ErrorReply)] && id !in Fail(m, id, Delivered, hand).connections
  {
    hide Send, Close;
    SentWhole(m, id, ErrorReply, hand);
    ClosedSilently(m.(wire := m.wire + [(id, ErrorReply)]), id, hand);
  }

  lemma PointerRefused(m: Machine, c: Machine, id: Id, at: Option<(nat, nat, nat)>, env: Env)
    requires Reached(m) && !Pointable(m, id, at, env) && c.inputs == m.inputs && c.enabled == m.enabled && c.connections == m.connections
    ensures PointerRequest(c, id, at, env) == Fail(c, id, env.reply, env.hand)
  {
    hide Reached, Fail, Post, Input.PointerStep;
    if id in m.inputs && at.Some? {
      OpenAllowed(m, id);
      var pad := m.inputs[id];
      var bounds := if env.granted then env.bounds else None;
      Laws.PointerExact(pad.ledger, pad.width, pad.height, at.value.0, at.value.1, at.value.2, bounds);
    }
  }

  lemma KeyRefused(m: Machine, c: Machine, id: Id, press: Option<(nat, bool)>, env: Env)
    requires !Keyable(m, id, press) && c.inputs == m.inputs
    ensures KeyRequest(c, id, press, env) == Fail(c, id, env.reply, env.hand)
  {
    hide Fail;
  }

  // ----- Connections, starts and captures -----

  /** A connection is taken exactly while there are fewer than sixteen, and then has its deadline ahead of it. */
  lemma AcceptExact(m: Machine, id: Id)
    requires Can(m, Accept(id)) && Reached(m)
    ensures var r := Step(m, Accept(id));
            && (id in r.connections <==> |m.connections| < 16)
            && (id in r.connections ==> id in r.deadlines && r.connections == m.connections + {id})
            && (id !in r.connections ==> r.connections == m.connections)
            && r.wire == m.wire && id in r.used
  {
    hide Reached, Limits, Tasks, Devices, Rates;
    AcceptFields(m, id);
    ReachedInv(m);
  }

  /** Consent is stored exactly when the user enables with the listener up, and taken back by disabling; nothing else moves with it. */
  lemma ConsentExact(m: Machine, e: Event)
    requires Reached(m) && Can(m, e)
    ensures Step(m, e).enabled <==> if e.Disable? then false else m.enabled || e == Enable(true)
    ensures e.Enable? ==> Step(m, e) == m.(enabled := m.enabled || e.listening)
  {
    hide Reached, Inv, Consented, Can, Handle, AfterVerify, CaptureProgress, AfterStart, AtDeadline, AcceptConnection, Close, CloseAll, AddsWire, AddsPosted;
    ReachedInv(m);
    if e.Disable? { DisabledOff(m, e); }
    if !e.Enable? && !e.Disable? { ConsentKept(m, e); }
  }

  lemma DisabledOff(m: Machine, e: Event)
    requires Can(m, e) && e.Disable?
    ensures !Step(m, e).enabled
  {
    hide Walks, ListsAll, AddsWire, AddsPosted;
    CloseAllShrinks(m.(enabled := false), e.ids, e.hand);
  }

  lemma ConsentKept(m: Machine, e: Event)
    requires Inv(m) && Can(m, e) && !e.Enable? && !e.Disable?
    ensures Step(m, e).enabled == m.enabled
  {
    hide Inv, Can, Step, Extends;
    StepExtends(m, e);
  }

  /** A verified start of an open connection creates its capture and an input of the size asked for, both for it alone. */
  lemma VerifiedCreates(m: Machine, id: Id, granted: bool, reply: Reply, hand: Hand)
    requires Reached(m) && Can(m, Verified(id, true, true, granted, reply, hand)) && id in m.connections
    ensures var r := Step(m, Verified(id, true, true, granted, reply, hand));
            && r.captures == m.captures + {id} && r.connections == m.connections && r.enabled == m.enabled
            && r.inputs == m.inputs[id := Pad(Input.FRESH, m.starts[id].width, m.starts[id].height)]
            && id !in m.objects && r.objects.Keys == m.objects.Keys + {id} && (forall x :: x in m.objects ==> r.objects[x] == m.objects[x])
            && r.objects[id] == Life.NEW.(phase := if granted then Life.AwaitingContent else Life.Threw)
            && r.starts == m.starts[id := Capturing] && r.pending == m.pending && r.reservations == m.reservations
            && r.wire == m.wire && r.posted == m.posted
  {
    hide Reached, Inv, Consented, Fail, Walks;
    ReachedInv(m);
    VerifyingPending(m, id);
    PendingAllowed(m, id);
    StartNew(m, id);
  }

  lemma StartNew(m: Machine, id: Id)
    requires Inv(m) && id in m.starts && m.starts[id].Verifying?
    ensures id !in m.objects
  {
    hide Limits, Devices, Rates;
  }

  /** A start that returned is confirmed to its peer, and its connection is no longer pending and keeps its capture. */
  lemma StartConfirmed(m: Machine, id: Id, hand: Hand)
    requires Reached(m) && Can(m, StartReturns(id, Delivered, hand)) && id in m.connections && m.objects[id].phase.Started?
    ensures var r := Step(m, StartReturns(id, Delivered, hand));
            && r.wire == m.wire + [(id, StartedReply)]
            && id !in r.pending && id in r.captures && id in r.connections && id !in r.starts
            && r.captures == m.captures && r.connections == m.connections && r.inputs == m.inputs && r.objects == m.objects
            && r.reservations == m.reservations && r.posted == m.posted
  {
    hide Reached, Inv, Consented, Fail, Send, Walks;
    ReachedInv(m);
    VerifyingPending(m, id);
    PendingAllowed(m, id);
    SentWhole(m.(starts := m.starts - {id}, pending := m.pending - {id}), id, StartedReply, hand);
  }

  /** An encoded frame of an open connection's capture is sent on that connection, once and at once. */
  lemma FrameForwarded(m: Machine, id: Id, hand: Hand)
    requires Reached(m) && Can(m, Progress(id, Life.Encoded(true, true), Delivered, hand)) && id in m.connections
    ensures var r := Step(m, Progress(id, Life.Encoded(true, true), Delivered, hand));
            && r.wire == m.wire + [(id, FrameReply)]
            && r.connections == m.connections && r.captures == m.captures && r.inputs == m.inputs && r.posted == m.posted
  {
    hide Reached, Inv, Consented, Fail, Send, Walks, Life.Step, Life.Can;
    ReachedInv(m);
    LiveObject(m, id);
    Starts.SignalsExact(m.objects[id], Life.Encoded(true, true));
    SentWhole(m.(objects := m.objects[id := Life.Step(m.objects[id], Life.Encoded(true, true)).next]), id, FrameReply, hand);
  }

  lemma LiveObject(m: Machine, id: Id)
    requires Inv(m) && id in m.objects && id in m.connections
    ensures id in m.captures && !m.objects[id].stopped
  {
    hide Limits, Devices, Rates;
  }

  /** The loss of a capture is told on its connection, which is then closed. */
  lemma LossTold(m: Machine, id: Id, event: Life.Event, hand: Hand)
    requires Reached(m) && Can(m, Progress(id, event, Delivered, hand)) && id in m.connections && Starts.Loses(event)
    ensures var r := Step(m, Progress(id, event, Delivered, hand));
            r.wire == m.wire + [(id, ErrorReply)] && id !in r.connections
  {
    hide Reached, Inv, Consented, Fail, Send, Walks, Life.Step, Life.Can;
    ReachedInv(m);
    LiveObject(m, id);
    Starts.SignalsExact(m.objects[id], event);
    LossIsNoFrame(event);
    FailTells(m.(objects := m.objects[id := Life.Step(m.objects[id], event).next]), id, hand);
  }

  /** A deadline does nothing at all to a connection whose start has returned. */
  lemma DeadlineHarmless(m: Machine, id: Id, hand: Hand)
    requires Reached(m) && Can(m, Deadline(id, hand)) && id in m.connections && id in m.objects && id !in m.starts
    ensures Step(m, Deadline(id, hand)) == m.(deadlines := m.deadlines - {id})
    ensures var r := Step(m, Deadline(id, hand));
            && id in r.connections && id in r.captures && id in r.inputs && id in r.reservations
            && r.objects[id].phase.Started? && !r.objects[id].stopped
            && r.wire == m.wire && r.posted == m.posted
  {
    hide Reached, Limits, Devices, Rates, Close, Walks;
    ReachedInv(m);
    assert id in m.inputs.Keys && id in m.reservations.Keys;
  }

  // ----- A start from beginning to end -----

  /** A capture event that signals nothing changes nothing but the capture. */
  lemma ProgressQuiet(m: Machine, id: Id, event: Life.Event, reply: Reply, hand: Hand)
    requires Can(m, Progress(id, event, reply, hand)) && Life.Step(m.objects[id], event).signal == Life.Quiet
    ensures Step(m, Progress(id, event, reply, hand)) == m.(objects := m.objects[id := Life.Step(m.objects[id], event).next])
  {
    hide Life.Step, Life.Can, Send, Fail, Walks;
  }

  /** The permitted events that take a capture from its creation to a running stream. */
  const RESUMES := [Life.Content(true, true, true), Life.NativeStarts, Life.StreamResumes(true, true)]

  const RUNNING := Life.NEW.(phase := Life.Started, held := true, timer := true, native := Life.Running)

  lemma ContentArrives(m: Machine, id: Id, hand: Hand)
    requires Allowed(m, id) && Walks(hand) && id in m.objects && m.objects[id] == Life.NEW.(phase := Life.AwaitingContent)
    ensures var e := Progress(id, Life.Content(true, true, true), Delivered, hand);
            Can(m, e) && Step(m, e) == m.(objects := m.objects[id := Life.NEW.(phase := Life.AwaitingStream, held := true, timer := true, native := Life.Pending)])
  {
    hide Walks;
    ProgressQuiet(m, id, Life.Content(true, true, true), Delivered, hand);
  }

  lemma StreamStarts(m: Machine, id: Id, hand: Hand)
    requires Walks(hand) && id in m.objects && m.objects[id] == Life.NEW.(phase := Life.AwaitingStream, held := true, timer := true, native := Life.Pending)
    ensures var e := Progress(id, Life.NativeStarts, Delivered, hand);
            Can(m, e) && Step(m, e) == m.(objects := m.objects[id := Life.NEW.(phase := Life.AwaitingStream, held := true, timer := true, native := Life.Running)])
  {
    hide Walks;
    ProgressQuiet(m, id, Life.NativeStarts, Delivered, hand);
  }

  lemma StreamArrives(m: Machine, id: Id, hand: Hand)
    requires Allowed(m, id) && Walks(hand) && id in m.objects && m.objects[id] == Life.NEW.(phase := Life.AwaitingStream, held := true, timer := true, native := Life.Running)
    ensures var e := Progress(id, Life.StreamResumes(true, true), Delivered, hand);
            Can(m, e) && Step(m, e) == m.(objects := m.objects[id := RUNNING])
  {
    hide Walks;
    ProgressQuiet(m, id, Life.StreamResumes(true, true), Delivered, hand);
  }

  /** The events of a start that nothing spoils, with nothing else in between. */
  function StartEvents(id: Id, size: (nat, nat), env: Env): seq<Event> {
    [Incoming(id, Start(Some(size)), env),
     Verified(id, true, true, true, Delivered, env.hand),
     Progress(id, RESUMES[0], Delivered, env.hand),
     Progress(id, RESUMES[1], Delivered, env.hand),
     Progress(id, RESUMES[2], Delivered, env.hand),
     StartReturns(id, Delivered, env.hand)]
  }

  lemma LawfulCons(m: Machine, e: Event, rest: seq<Event>)
    requires Can(m, e) && Lawful(Step(m, e), rest)
    ensures Lawful(m, [e] + rest) && Run(m, [e] + rest) == Run(Step(m, e), rest)
  {
    hide Can, Step;
    assert ([e] + rest)[0] == e && ([e] + rest)[1..] == rest;
  }

  /** From the creation of the capture on. */
  lemma CaptureSucceeds(m: Machine, id: Id, hand: Hand) returns (r: Machine)
    requires Reached(m) && Allowed(m, id) && Walks(hand) && id in m.objects && id in m.starts && m.starts[id].Capturing?
    requires m.objects[id] == Life.NEW.(phase := Life.AwaitingContent)
    ensures var events := [
              Progress(id, RESUMES[0], Delivered, hand), Progress(id, RESUMES[1], Delivered, hand),
              Progress(id, RESUMES[2], Delivered, hand), StartReturns(id, Delivered, hand)];
            Lawful(m, events) && r == Run(m, events)
    ensures r.wire == m.wire + [(id, StartedReply)] && r.connections == m.connections
    ensures id in r.captures && id !in r.pending && id in r.objects && r.objects[id] == RUNNING && r.inputs == m.inputs
  {
    hide Reached, Can, Step, Walks, Lawful, Run;
    var e1, e2 := Progress(id, RESUMES[0], Delivered, hand), Progress(id, RESUMES[1], Delivered, hand);
    var e3, e4 := Progress(id, RESUMES[2], Delivered, hand), StartReturns(id, Delivered, hand);
    ContentArrives(m, id, hand);
    ReachedNext(m, e1);
    var a := Step(m, e1);
    StreamStarts(a, id, hand);
    ReachedNext(a, e2);
    var b := Step(a, e2);
    StreamArrives(b, id, hand);
    ReachedNext(b, e3);
    var c := Step(b, e3);
    ReturnPossible(c, id, hand);
    StartConfirmed(c, id, hand);
    r := Step(c, e4);
    LawfulNil(r);
    LawfulCons(c, e4, []);
    LawfulCons(b, e3, [e4] + []);
    LawfulCons(a, e2, [e3] + ([e4] + []));
    LawfulCons(m, e1, [e2] + ([e3] + ([e4] + [])));
    assert [e1] + ([e2] + ([e3] + ([e4] + []))) == [e1, e2, e3, e4];
  }

  lemma LawfulNil(m: Machine)
    ensures Lawful(m, []) && Run(m, []) == m
  {
  }

  lemma ReturnPossible(m: Machine, id: Id, hand: Hand)
    requires Walks(hand) && id in m.objects && m.objects[id] == RUNNING && id in m.starts && m.starts[id].Capturing?
    ensures Can(m, StartReturns(id, Delivered, hand))
  {
    hide Walks;
  }

  /**
   In every reachable state: a start that is not rejected, whose display verifies and whose checks pass, ends
   with a running capture of the size asked for, confirmed on its connection, which is still open.
   */
  lemma StartSucceeds(m: Machine, id: Id, size: (nat, nat), env: Env)
    requires Reached(m) && Can(m, Incoming(id, Start(Some(size)), env)) && !Rejected(m, id, Start(Some(size)), env)
    ensures Lawful(m, StartEvents(id, size, env))
    ensures var r := Run(m, StartEvents(id, size, env));
            && r.wire == m.wire + [(id, StartedReply)]
            && id in r.connections && id in r.captures && id !in r.pending && id in r.objects && r.objects[id] == RUNNING
            && id in r.inputs && r.inputs[id] == Pad(Input.FRESH, size.0, size.1)
  {
    hide Reached, Step, Walks, Lawful, Run, Rejected;
    var e1, e2 := Incoming(id, Start(Some(size)), env), Verified(id, true, true, true, Delivered, env.hand);
    StartAccepted(m, id, size, env);
    ReachedNext(m, e1);
    var a := Step(m, e1);
    VerifiedCreates(a, id, true, Delivered, env.hand);
    ReachedNext(a, e2);
    var b := Step(a, e2);
    StartEnabled(m, id, size, env);
    var r := CaptureSucceeds(b, id, env.hand);
    var rest := [
      Progress(id, RESUMES[0], Delivered, env.hand), Progress(id, RESUMES[1], Delivered, env.hand),
      Progress(id, RESUMES[2], Delivered, env.hand), StartReturns(id, Delivered, env.hand)];
    LawfulCons(a, e2, rest);
    LawfulCons(m, e1, [e2] + rest);
    assert [e1] + ([e2] + rest) == StartEvents(id, size, env);
  }

  lemma StartEnabled(m: Machine, id: Id, size: (nat, nat), env: Env)
    requires !Rejected(m, id, Start(Some(size)), env)
    ensures m.enabled
  {
    hide Startable, Busy;
  }
}
