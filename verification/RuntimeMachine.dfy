/**
 The helper's runtime as a state machine (native/display-helper/Runtime.swift). Each event is one
 main-actor segment between awaits; what the system, the peer and the user do is chosen freely.
 */
module RuntimeMachine {
  import opened Outcomes
  import opened RequestRate
  import opened HelperProtocol
  import Input = InputLedger
  import Life = CaptureLife

  type Id = nat

  datatype Message = StatusReply | ErrorReply | InputBlocked | Rescued | StartedReply | FrameReply

  /** The input object of one capture: its ledger and the size its coordinates are checked against. */
  datatype Pad = Pad(ledger: Input.Ledger, width: nat, height: nat)

  /** Where a start task is suspended: verifying the display, or inside the capture's own start. */
  datatype Task = Verifying(width: nat, height: nat) | Capturing

  datatype Machine = Machine(
    layout: Input.Layout,
    enabled: bool,                       // the stored consent
    used: set<Id>,                       // every connection id ever handed out
    connections: set<Id>,
    captures: set<Id>,
    objects: map<Id, Life.Capture>,      // every capture object ever created, by its connection
    inputs: map<Id, Pad>,
    reservations: map<Id, nat>,
    pending: set<Id>,
    rates: map<Id, Rate>,
    starts: map<Id, Task>,               // start tasks that have not returned
    deadlines: set<Id>,                  // ten-second timers that have not fired
    clock: real,
    wire: seq<(Id, Message)>,            // messages accepted for sending, in order
    posted: seq<(Id, Input.Event)>,      // input events posted to the system, in order
    served: seq<(Id, real)>)             // requests that passed the rate cap, with their times

  const MAX_CONNECTIONS := 16
  const MAX_RESERVATIONS := 4
  const PIXEL_BUDGET := 16_777_216

  function Initial(layout: Input.Layout, enabled: bool): Machine {
    Machine(layout, enabled, {}, {}, {}, map[], map[], map[], {}, map[], map[], {}, 0.0, [], [], [])
  }

  // ----- What the environment chooses inside one segment -----

  /** How releases in this segment walk their sets of codes, and where they find the cursor. */
  datatype Hand = Hand(pick: set<Input.Code> -> seq<Input.Code>, cursor: Input.Point)

  ghost predicate Walks(hand: Hand) {
    forall codes :: Input.Lists(hand.pick(codes), codes)
  }

  /** What happens to one message: written out, refused for size, or accepted and then lost with the socket. */
  datatype Reply = Delivered | Refused | Broken

  datatype Env = Env(
    now: real,
    granted: bool,                   // both privacy permissions
    reply: Reply,
    bounds: Option<Input.Rect>,      // the display's bounds, if it is still there
    focus: Option<Input.Pid>,
    made: bool,
    hand: Hand)

  // ----- Building blocks -----

  ghost function Sum(m: map<Id, nat>): nat {
    if m == map[] then 0
    else
      var k :| k in m;
      m[k] + Sum(m - {k})
  }

  function Tag(id: Id, events: seq<Input.Event>): seq<(Id, Input.Event)> {
    seq(|events|, i requires 0 <= i < |events| => (id, events[i]))
  }

  function Post(m: Machine, id: Id, ledger: Input.Ledger, events: seq<Input.Event>): Machine
    requires id in m.inputs
  {
    m.(inputs := m.inputs[id := m.inputs[id].(ledger := ledger)], posted := m.posted + Tag(id, events))
  }

  function Released(ledger: Input.Ledger, hand: Hand): Input.Outcome {
    Input.ReleaseStep(ledger, hand.pick(ledger.keys.Values), hand.cursor)
  }

  function ReleaseInput(m: Machine, id: Id, hand: Hand): Machine
    requires id in m.inputs
  {
    var o := Released(m.inputs[id].ledger, hand);
    Post(m, id, o.next, o.events)
  }

  /** `remove`: release the input, stop the capture, and give back every share of the connection. */
  function Remove(m: Machine, id: Id, hand: Hand): Machine {
    m.(
      posted := m.posted + if id in m.inputs then Tag(id, Released(m.inputs[id].ledger, hand).events) else [],
      inputs := m.inputs - {id},
      captures := m.captures - {id},
      objects := if id in m.captures && id in m.objects then m.objects[id := Life.StopNow(m.objects[id])] else m.objects,
      connections := m.connections - {id},
      pending := m.pending - {id},
      reservations := m.reservations - {id},
      rates := m.rates - {id})
  }

  /** Closing twice is harmless. */
  function Close(m: Machine, id: Id, hand: Hand): Machine {
    if id in m.connections then Remove(m, id, hand) else m
  }

  function Send(m: Machine, id: Id, message: Message, reply: Reply, hand: Hand): Machine {
    if id !in m.connections then m
    else match reply
      case Delivered => m.(wire := m.wire + [(id, message)])
      case Refused => Close(m, id, hand)
      case Broken => Close(m.(wire := m.wire + [(id, message)]), id, hand)
  }

  function Fail(m: Machine, id: Id, reply: Reply, hand: Hand): Machine {
    Close(Send(m, id, ErrorReply, reply, hand), id, hand)
  }

  function CloseAll(m: Machine, ids: seq<Id>, hand: Hand): Machine {
    if ids == [] then m else Close(CloseAll(m, ids[..|ids| - 1], hand), ids[|ids| - 1], hand)
  }

  /** The `allowed` closure captured by a connection's capture and input objects. */
  predicate Allowed(m: Machine, id: Id) {
    m.enabled && id in m.connections
  }

  // ----- Requests -----

  /** Invalid, not permitted, or beyond the limits on captures and reserved pixels. */
  ghost predicate StartRefused(m: Machine, id: Id, size: Option<(nat, nat)>, env: Env) {
    || id in m.captures || id in m.pending || size.None? || !env.granted
    || |m.reservations| >= MAX_RESERVATIONS
    || Sum(m.reservations) + size.value.0 * size.value.1 > PIXEL_BUDGET
  }

  function Reserve(m: Machine, id: Id, pixels: nat, task: Task): Machine {
    m.(reservations := m.reservations[id := pixels], pending := m.pending + {id}, starts := m.starts[id := task])
  }

  ghost function StartRequest(m: Machine, id: Id, size: Option<(nat, nat)>, env: Env): Machine {
    if StartRefused(m, id, size, env) then Fail(m, id, env.reply, env.hand)
    else Reserve(m, id, size.value.0 * size.value.1, Verifying(size.value.0, size.value.1))
  }

  function PointerRequest(m: Machine, id: Id, at: Option<(nat, nat, nat)>, env: Env): Machine {
    if id !in m.inputs || at.None? then Fail(m, id, env.reply, env.hand)
    else
      var pad := m.inputs[id];
      var bounds := if Allowed(m, id) && env.granted then env.bounds else None;
      var o := Input.PointerStep(pad.ledger, pad.width, pad.height, at.value.0, at.value.1, at.value.2, bounds);
      if o.threw then Fail(m, id, env.reply, env.hand) else Post(m, id, o.next, o.events)
  }

  function KeyRequest(m: Machine, id: Id, press: Option<(nat, bool)>, env: Env): Machine {
    if id !in m.inputs || press.None? || press.value.0 > 0xFFFF_FFFF then Fail(m, id, env.reply, env.hand)
    else
      var ledger := m.inputs[id].ledger;
      var permitted := Allowed(m, id) && env.granted && env.bounds.Some?;
      var o := Input.KeyStep(m.layout, ledger, press.value.0, press.value.1,
                             Input.KeyEnv(permitted, env.focus, env.made, env.hand.pick(ledger.keys.Values), env.hand.cursor));
      var after := Post(m, id, o.next, o.events);
      if o.threw then Send(ReleaseInput(after, id, env.hand), id, InputBlocked, env.reply, env.hand) else after
  }

  ghost function Dispatch(m: Machine, id: Id, command: Command, env: Env): Machine {
    match command
    case Status => Send(m, id, StatusReply, env.reply, env.hand)
    case Start(size) => StartRequest(m, id, size, env)
    case Pointer(at) => PointerRequest(m, id, at, env)
    case Key(press) => KeyRequest(m, id, press, env)
    case Release => if id in m.inputs then ReleaseInput(m, id, env.hand) else m
    case Stop => Close(m, id, env.hand)
    case RescueCursor => Send(m, id, Rescued, env.reply, env.hand)
    case Unknown => Fail(m, id, env.reply, env.hand)
    case Malformed => Close(m, id, env.hand)
  }

  /** Without consent only a status and a cursor rescue are answered. */
  predicate Admitted(m: Machine, command: Command) {
    !command.Malformed? && (m.enabled || command.Status? || command.RescueCursor?)
  }

  ghost function Handle(m: Machine, id: Id, command: Command, env: Env): Machine {
    if !Admitted(m, command) then Close(m, id, env.hand)
    else
      var rate := Admit(if id in m.rates then Some(m.rates[id]) else None, env.now);
      var counted := m.(rates := m.rates[id := rate]);
      if rate.count > LIMIT then Close(counted, id, env.hand)
      else Dispatch(counted.(served := m.served + [(id, env.now)]), id, command, env)
  }

  // ----- Events -----

  datatype Event =
    | Accept(id: Id)
    | PeerClose(id: Id, hand: Hand)
    | Incoming(id: Id, command: Command, env: Env)
    | Verified(id: Id, ok: bool, located: bool, granted: bool, reply: Reply, hand: Hand)
    | Progress(id: Id, event: Life.Event, reply: Reply, hand: Hand)
    | StartReturns(id: Id, reply: Reply, hand: Hand)
    | Deadline(id: Id, hand: Hand)
    | Enable(listening: bool)
    | Disable(ids: seq<Id>, hand: Hand)
    | Shutdown(ids: seq<Id>, hand: Hand)

  function AcceptConnection(m: Machine, id: Id): Machine {
    if |m.connections| >= MAX_CONNECTIONS then m.(used := m.used + {id})
    else m.(used := m.used + {id}, connections := m.connections + {id}, deadlines := m.deadlines + {id})
  }

  function AfterVerify(m: Machine, id: Id, ok: bool, located: bool, granted: bool, reply: Reply, hand: Hand): Machine
    requires id in m.starts && m.starts[id].Verifying?
  {
    var task := m.starts[id];
    var returned := m.(starts := m.starts - {id});
    if !ok then Fail(returned, id, reply, hand)
    else if !Allowed(m, id) then returned
    else if !located then Fail(returned, id, reply, hand)
    else
      m.(captures := m.captures + {id},
         objects := m.objects[id := Life.Step(Life.NEW, Life.Begin(granted && Allowed(m, id))).next],
         inputs := m.inputs[id := Pad(Input.FRESH, task.width, task.height)],
         starts := m.starts[id := Capturing])
  }

  function CaptureProgress(m: Machine, id: Id, event: Life.Event, reply: Reply, hand: Hand): Machine
    requires id in m.objects
  {
    var o := Life.Step(m.objects[id], event);
    var moved := m.(objects := m.objects[id := o.next]);
    match o.signal
    case Quiet => moved
    case Frame => Send(moved, id, FrameReply, reply, hand)
    case Lost => Fail(moved, id, reply, hand)
  }

  function AfterStart(m: Machine, id: Id, reply: Reply, hand: Hand): Machine
    requires id in m.starts && id in m.objects
  {
    var returned := m.(starts := m.starts - {id});
    if m.objects[id].phase.Threw? then Fail(returned, id, reply, hand)
    else if !Allowed(m, id) then returned.(objects := m.objects[id := Life.StopNow(m.objects[id])])
    else Send(returned.(pending := m.pending - {id}), id, StartedReply, reply, hand)
  }

  function AtDeadline(m: Machine, id: Id, hand: Hand): Machine {
    var fired := m.(deadlines := m.deadlines - {id});
    if id !in m.captures || id in m.pending then Close(fired, id, hand) else fired
  }

  ghost function Step(m: Machine, e: Event): Machine
    requires Can(m, e)
  {
    match e
    case Accept(id) => AcceptConnection(m, id)
    case PeerClose(id, hand) => Close(m, id, hand)
    case Incoming(id, command, env) => Handle(m.(clock := env.now), id, command, env)
    case Verified(id, ok, located, granted, reply, hand) => AfterVerify(m, id, ok, located, granted, reply, hand)
    case Progress(id, event, reply, hand) => CaptureProgress(m, id, event, reply, hand)
    case StartReturns(id, reply, hand) => AfterStart(m, id, reply, hand)
    case Deadline(id, hand) => AtDeadline(m, id, hand)
    case Enable(listening) => if listening then m.(enabled := true) else m
    case Disable(ids, hand) => CloseAll(m.(enabled := false), ids, hand)
    case Shutdown(ids, hand) => CloseAll(m, ids, hand)
  }

  /** Does the capture event claim that its `allowed` check passed? */
  predicate ClaimsPermission(e: Life.Event) {
    match e
    case Content(_, permitted, _) => permitted
    case StreamResumes(_, permitted) => permitted
    case Tick(permitted) => permitted
    case Sample(permitted, _, _) => permitted
    case Encoded(permitted, _) => permitted
    case _ => false
  }

  /** The ids list every open connection, as `Array(connections.values)` does. */
  predicate ListsAll(m: Machine, ids: seq<Id>) {
    forall id :: id in m.connections ==> id in ids
  }

  /** When each event can occur. */
  ghost predicate Can(m: Machine, e: Event) {
    match e
    case Accept(id) => id !in m.used
    case PeerClose(id, hand) => Walks(hand)
    case Incoming(id, command, env) =>
      id in m.connections && env.now >= m.clock && Walks(env.hand) && InRange(command)
    case Verified(id, _, _, _, _, hand) => id in m.starts && m.starts[id].Verifying? && Walks(hand)
    case Progress(id, event, _, hand) =>
      && id in m.objects && Walks(hand) && Life.Can(m.objects[id], event)
      && !event.Begin? && !event.Stop? && (ClaimsPermission(event) ==> Allowed(m, id))
    case StartReturns(id, _, hand) =>
      && id in m.starts && m.starts[id].Capturing? && id in m.objects && Walks(hand)
      && (m.objects[id].phase.Started? || m.objects[id].phase.Threw?)
    case Deadline(id, hand) => id in m.deadlines && Walks(hand)
    case Enable(_) => true
    case Disable(ids, hand) => ListsAll(m, ids) && Walks(hand)
    case Shutdown(ids, hand) => ListsAll(m, ids) && Walks(hand)
  }

  // ----- Runs -----

  ghost predicate Lawful(m: Machine, events: seq<Event>)
    decreases |events|
  {
    events == [] || (Can(m, events[0]) && Lawful(Step(m, events[0]), events[1..]))
  }

  ghost function Run(m: Machine, events: seq<Event>): Machine
    requires Lawful(m, events)
    decreases |events|
  {
    if events == [] then m else Run(Step(m, events[0]), events[1..])
  }
}
