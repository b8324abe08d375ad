/** Every event of the runtime keeps the invariant, and consent off keeps everything off. */
module RuntimeSteps {
  import opened Outcomes
  import opened RequestRate
  import opened HelperProtocol
  import opened RuntimeMachine
  import opened RuntimeInvariant
  import Input = InputLedger
  import Life = CaptureLife

  // ----- Capture events -----

  /** What one capture event, other than the owner's, may change. */
  lemma CaptureStepShape(c: Life.Capture, e: Life.Event)
    requires Life.Sound(c) && Life.Can(c, e) && !e.Begin? && !e.Stop? && !c.phase.Unstarted?
    ensures var o := Life.Step(c, e);
            && Life.Sound(o.next) && !o.next.phase.Unstarted?
            && (c.phase.Started? ==> o.next.phase.Started?)
            && (o.signal == Life.Lost ==> !c.stopped && o.next.stopped)
            && (o.signal != Life.Lost ==> o.next.stopped == c.stopped)
            && (o.signal == Life.Frame ==> e.Encoded? && e.permitted)
  {
    Life.StepSound(c, e);
  }

  lemma ObjectSound(m: Machine, id: Id)
    requires Inv(m) && id in m.objects
    ensures Life.Sound(m.objects[id]) && !m.objects[id].phase.Unstarted?
  {
  }

  lemma ProgressKeeps(m: Machine, id: Id, e: Life.Event, reply: Reply, hand: Hand)
    requires Inv(m) && Can(m, Progress(id, e, reply, hand))
    ensures Inv(CaptureProgress(m, id, e, reply, hand))
  {
    hide Inv, Life.Step, Life.Sound, Life.Can, Send, Fail;
    ObjectSound(m, id);
    CaptureStepShape(m.objects[id], e);
    var o := Life.Step(m.objects[id], e);
    match o.signal
    case Quiet => MoveKeeps(m, id, o.next);
    case Frame =>
      MoveKeeps(m, id, o.next);
      SendKeeps(m.(objects := m.objects[id := o.next]), id, FrameReply, reply, hand);
    case Lost => LossKeeps(m, id, o.next, reply, hand);
  }

  // ----- A start that returns -----

  function Confirmed(m: Machine, id: Id): Machine {
    m.(starts := m.starts - {id}, pending := m.pending - {id})
  }

  lemma ConfirmHolders(m: Machine, id: Id)
    requires Holders(m) && id in m.captures
    ensures Holders(Confirmed(m, id))
  {
    assert m.captures + (m.pending - {id}) == m.captures + m.pending;
    assert Confirmed(m, id).starts.Keys == m.starts.Keys - {id};
  }

  lemma ConfirmTasks(m: Machine, id: Id)
    requires Tasks(m) && id in m.captures && m.objects[id].phase.Started?
    ensures Tasks(Confirmed(m, id))
  {
    var r := Confirmed(m, id);
    assert r.starts.Keys == m.starts.Keys - {id};
    assert r.starts.Keys * r.connections == (m.starts.Keys * m.connections) - {id};
  }

  lemma ConfirmKeeps(m: Machine, id: Id)
    requires Inv(m) && id in m.captures && id in m.objects && m.objects[id].phase.Started?
    ensures Inv(Confirmed(m, id))
  {
    hide Tasks, Holders, Devices, Rates, Sum;
    ConfirmHolders(m, id);
    ConfirmTasks(m, id);
    DevicesFrame(m, Confirmed(m, id));
    RatesFrame(m, Confirmed(m, id));
  }

  /** A suspended start on an open connection is pending; without consent there is none. */
  lemma SuspendedIsPending(m: Machine, id: Id)
    requires Inv(m) && Consented(m) && id in m.starts && id in m.connections
    ensures id in m.pending && m.enabled
    ensures m.starts[id].Capturing? ==> id in m.captures && id in m.objects
  {
    hide Limits, Devices, Rates;
  }

  lemma OrphanIsStopped(m: Machine, id: Id)
    requires Inv(m) && id in m.objects && id !in m.connections
    ensures Life.StopNow(m.objects[id]) == m.objects[id]
  {
    hide Limits, Devices, Rates;
  }

  lemma StartReturnsKeeps(m: Machine, id: Id, reply: Reply, hand: Hand)
    requires Inv(m) && Consented(m) && Can(m, StartReturns(id, reply, hand))
    ensures Inv(AfterStart(m, id, reply, hand))
  {
    hide Inv, Send, Fail, Consented, Life.StopNow, Walks;
    if m.objects[id].phase.Threw? {
      FailAndReturnKeeps(m, id, reply, hand);
    } else if !Allowed(m, id) {
      if id in m.connections { SuspendedIsPending(m, id); }
      OrphanIsStopped(m, id);
      assert m.objects[id := m.objects[id]] == m.objects;
      ReturnKeeps(m, id);
    } else {
      SuspendedIsPending(m, id);
      ConfirmKeeps(m, id);
      SendKeeps(Confirmed(m, id), id, StartedReply, reply, hand);
    }
  }

  // ----- Connections -----

  lemma AcceptHolders(m: Machine, r: Machine, id: Id)
    requires Holders(m)
    requires r.captures == m.captures && r.pending == m.pending && r.objects == m.objects && r.starts == m.starts
    requires r.inputs == m.inputs && r.reservations == m.reservations && r.rates == m.rates
    requires r.used == m.used + {id}
    requires r.connections == m.connections || r.connections == m.connections + {id}
    ensures Holders(r)
  {
  }

  lemma AcceptLimits(m: Machine, id: Id)
    requires Limits(m)
    ensures Limits(AcceptConnection(m, id))
  {
    hide Sum;
    if |m.connections| < MAX_CONNECTIONS && id !in m.connections {
      assert |m.connections + {id}| == |m.connections| + 1;
    } else if id in m.connections {
      assert m.connections + {id} == m.connections;
    }
  }

  lemma AcceptTasks(m: Machine, r: Machine, id: Id)
    requires Tasks(m) && id !in m.starts && id !in m.objects
    requires r.captures == m.captures && r.pending == m.pending && r.objects == m.objects && r.starts == m.starts
    requires r.connections == m.connections + {id} && r.deadlines == m.deadlines + {id}
    ensures Tasks(r)
  {
    assert r.starts.Keys * r.connections == m.starts.Keys * m.connections;
  }

  lemma NewId(m: Machine, id: Id)
    requires Holders(m) && id !in m.used
    ensures id !in m.starts && id !in m.objects && id !in m.rates
  {
    assert id !in m.starts.Keys && id !in m.objects.Keys && id !in m.rates.Keys;
  }

  lemma NoWindow()
    ensures Window([]) == None
  {
  }

  lemma AcceptRates(m: Machine, r: Machine, id: Id)
    requires Rates(m) && id !in m.used && id !in m.rates
    requires r.served == m.served && r.clock == m.clock && r.rates == m.rates && r.used == m.used + {id}
    requires r.connections == m.connections || r.connections == m.connections + {id}
    ensures Rates(r)
  {
    hide Served, Times, Window;
    NoWindow();
    forall x ensures Meters(Times(r.served, x), r.clock, x in r.connections, x in r.used, RateOf(r, x)) {
      assert Meters(Times(m.served, x), m.clock, x in m.connections, x in m.used, RateOf(m, x));
      assert RateOf(r, x) == RateOf(m, x);
    }
  }

  lemma AcceptKeeps(m: Machine, id: Id)
    requires Inv(m) && id !in m.used
    ensures Inv(AcceptConnection(m, id))
  {
    hide Tasks, Devices, Rates, Limits, Holders, AcceptConnection;
    var r := AcceptConnection(m, id);
    AcceptFields(m, id);
    NewId(m, id);
    AcceptHolders(m, r, id);
    AcceptLimits(m, id);
    if |m.connections| < MAX_CONNECTIONS {
      AcceptTasks(m, r, id);
    } else {
      FullTasks(m, r);
    }
    AcceptRates(m, r, id);
    DevicesFrame(m, r);
  }

  /** A refused connection leaves nothing behind but its id. */
  lemma FullTasks(m: Machine, r: Machine)
    requires Tasks(m)
    requires r.captures == m.captures && r.pending == m.pending && r.objects == m.objects && r.starts == m.starts
    requires r.connections == m.connections && r.deadlines == m.deadlines
    ensures Tasks(r)
  {
  }

  lemma AcceptFields(m: Machine, id: Id)
    ensures var r := AcceptConnection(m, id);
            && r == m.(used := m.used + {id}, connections := r.connections, deadlines := r.deadlines)
            && (if |m.connections| < MAX_CONNECTIONS
                then r.connections == m.connections + {id} && r.deadlines == m.deadlines + {id}
                else r.connections == m.connections && r.deadlines == m.deadlines)
  {
  }

  /** Once the deadline has fired, the connection is closed or its capture has started. */
  lemma DeadlineKeeps(m: Machine, id: Id, hand: Hand)
    requires Inv(m) && Walks(hand)
    ensures Inv(AtDeadline(m, id, hand))
  {
    hide Shares, Objects, Starts, Devices, Rates, Remove;
    var fired := m.(deadlines := m.deadlines - {id});
    if id in m.connections && (id !in m.captures || id in m.pending) {
      CloseKeeps(m, id, hand);
      CloseDeadlines(m, id, hand);
      FiredKeeps(Close(m, id, hand), id);
    } else {
      FiredKeeps(m, id);
    }
  }

  lemma CloseDeadlines(m: Machine, id: Id, hand: Hand)
    ensures var r := Close(m, id, hand);
            id !in r.connections && Close(m.(deadlines := m.deadlines - {id}), id, hand) == r.(deadlines := r.deadlines - {id})
  {
    hide Tag, Released, Life.StopNow;
  }

  lemma FiredTasks(m: Machine, id: Id)
    requires Tasks(m) && (id in m.connections ==> id in m.captures && id !in m.pending)
    ensures Tasks(m.(deadlines := m.deadlines - {id}))
  {
  }

  lemma FiredKeeps(m: Machine, id: Id)
    requires Inv(m) && (id in m.connections ==> id in m.captures && id !in m.pending)
    ensures Inv(m.(deadlines := m.deadlines - {id}))
  {
    hide Tasks, Devices, Rates, Sum;
    FiredTasks(m, id);
    DevicesFrame(m, m.(deadlines := m.deadlines - {id}));
    RatesFrame(m, m.(deadlines := m.deadlines - {id}));
  }

  lemma EnabledKeeps(m: Machine, enabled: bool)
    requires Inv(m)
    ensures Inv(m.(enabled := enabled))
  {
    hide Shares, Tasks, Devices, Rates;
    DevicesFrame(m, m.(enabled := enabled));
    RatesFrame(m, m.(enabled := enabled));
    SharesFrame(m, m.(enabled := enabled));
  }

  // ----- What a step may add -----

  predicate Live(message: Message) {
    message.FrameReply? || message.StartedReply?
  }

  /** Messages are added only for open connections, and live ones only with consent. */
  predicate AddsWire(before: seq<(Id, Message)>, after: seq<(Id, Message)>, open: set<Id>, enabled: bool) {
    before <= after &&
    forall k :: |before| <= k < |after| ==> after[k].0 in open && (Live(after[k].1) ==> enabled)
  }

  predicate AddsPosted(before: seq<(Id, Input.Event)>, after: seq<(Id, Input.Event)>, open: set<Id>) {
    before <= after && forall k :: |before| <= k < |after| ==> after[k].0 in open
  }

  /** No new holder of anything, and nothing added but on behalf of the connections that were open. */
  ghost predicate Shrinks(m: Machine, r: Machine) {
    && r.used == m.used && r.enabled == m.enabled
    && r.connections <= m.connections && r.captures <= m.captures && r.pending <= m.pending
    && r.inputs.Keys <= m.inputs.Keys && r.objects.Keys == m.objects.Keys
    && AddsWire(m.wire, r.wire, m.connections, m.enabled)
    && AddsPosted(m.posted, r.posted, m.connections)
  }

  lemma ShrinksTransitive(a: Machine, b: Machine, c: Machine)
    requires Shrinks(a, b) && Shrinks(b, c)
    ensures Shrinks(a, c)
  {
    forall k | |a.wire| <= k < |c.wire| ensures c.wire[k].0 in a.connections && (Live(c.wire[k].1) ==> a.enabled) {
      if k < |b.wire| { assert c.wire[k] == b.wire[k]; }
    }
    forall k | |a.posted| <= k < |c.posted| ensures c.posted[k].0 in a.connections {
      if k < |b.posted| { assert c.posted[k] == b.posted[k]; }
    }
  }

  lemma TagAdds(posted: seq<(Id, Input.Event)>, id: Id, events: seq<Input.Event>, open: set<Id>)
    requires id in open
    ensures AddsPosted(posted, posted + Tag(id, events), open)
  {
  }

  lemma CloseShrinks(m: Machine, id: Id, hand: Hand)
    ensures Shrinks(m, Close(m, id, hand))
  {
    hide Released, Life.StopNow;
    if id in m.connections {
      if id in m.inputs { TagAdds(m.posted, id, Released(m.inputs[id].ledger, hand).events, m.connections); }
      assert Remove(m, id, hand).inputs.Keys == m.inputs.Keys - {id};
    }
  }

  lemma SendShrinks(m: Machine, id: Id, message: Message, reply: Reply, hand: Hand)
    requires Live(message) ==> m.enabled
    ensures Shrinks(m, Send(m, id, message, reply, hand))
  {
    hide Close;
    if id in m.connections {
      var sent := m.(wire := m.wire + [(id, message)]);
      assert Shrinks(m, sent);
      CloseShrinks(sent, id, hand);
      CloseShrinks(m, id, hand);
      ShrinksTransitive(m, sent, Close(sent, id, hand));
    }
  }

  lemma FailShrinks(m: Machine, id: Id, reply: Reply, hand: Hand)
    ensures Shrinks(m, Fail(m, id, reply, hand))
  {
    hide Close, Send, Shrinks;
    var sent := Send(m, id, ErrorReply, reply, hand);
    SendShrinks(m, id, ErrorReply, reply, hand);
    CloseShrinks(sent, id, hand);
    ShrinksTransitive(m, sent, Close(sent, id, hand));
  }

  lemma {:induction false} CloseAllShrinks(m: Machine, ids: seq<Id>, hand: Hand)
    ensures Shrinks(m, CloseAll(m, ids, hand))
    ensures forall id :: id in ids ==> id !in CloseAll(m, ids, hand).connections
  {
    if ids == [] {
      assert Shrinks(m, m);
    } else {
      hide Close, AddsWire, AddsPosted;
      var front, last := ids[..|ids| - 1], ids[|ids| - 1];
      var before := CloseAll(m, front, hand);
      CloseAllShrinks(m, front, hand);
      CloseShrinks(before, last, hand);
      ShrinksTransitive(m, before, Close(before, last, hand));
      CloseGone(before, last, hand);
      assert forall id :: id in ids ==> id in front || id == last;
    }
  }

  lemma PostShrinks(m: Machine, id: Id, ledger: Input.Ledger, events: seq<Input.Event>)
    requires id in m.inputs && id in m.connections
    ensures Shrinks(m, Post(m, id, ledger, events))
  {
    TagAdds(m.posted, id, events, m.connections);
    assert Post(m, id, ledger, events).inputs.Keys == m.inputs.Keys;
  }

  // ----- Whole requests and whole steps -----

  lemma DispatchShrinks(m: Machine, id: Id, command: Command, env: Env)
    requires Inv(m) && id in m.connections
    ensures command.Start? || Shrinks(m, Dispatch(m, id, command, env))
  {
    hide Inv, Close, Send, Fail, Post, Shrinks, Input.PointerStep, Input.KeyStep, Released;
    InputsOpen(m);
    match command
    case Status => SendShrinks(m, id, StatusReply, env.reply, env.hand);
    case Start(_) =>
    case Pointer(at) => PointerShrinks(m, id, at, env);
    case Key(press) => KeyShrinks(m, id, press, env);
    case Release =>
      if id in m.inputs {
        PostShrinks(m, id, Released(m.inputs[id].ledger, env.hand).next, Released(m.inputs[id].ledger, env.hand).events);
      } else { ShrinksReflexive(m); }
    case Stop => CloseShrinks(m, id, env.hand);
    case RescueCursor => SendShrinks(m, id, Rescued, env.reply, env.hand);
    case Unknown => FailShrinks(m, id, env.reply, env.hand);
    case Malformed => CloseShrinks(m, id, env.hand);
  }

  lemma InputsOpen(m: Machine)
    requires Inv(m)
    ensures m.inputs.Keys <= m.connections && m.connections <= m.used
  {
    hide Limits, Tasks, Devices, Rates;
  }

  lemma ShrinksReflexive(m: Machine)
    ensures Shrinks(m, m)
  {
  }

  lemma PointerShrinks(m: Machine, id: Id, at: Option<(nat, nat, nat)>, env: Env)
    requires m.inputs.Keys <= m.connections
    ensures Shrinks(m, PointerRequest(m, id, at, env))
  {
    hide Fail, Post, Shrinks, Input.PointerStep;
    FailShrinks(m, id, env.reply, env.hand);
    if id in m.inputs && at.Some? {
      assert id in m.inputs.Keys;
      var pad := m.inputs[id];
      var bounds := if Allowed(m, id) && env.granted then env.bounds else None;
      var o := Input.PointerStep(pad.ledger, pad.width, pad.height, at.value.0, at.value.1, at.value.2, bounds);
      PostShrinks(m, id, o.next, o.events);
    }
  }

  lemma KeyShrinks(m: Machine, id: Id, press: Option<(nat, bool)>, env: Env)
    requires m.inputs.Keys <= m.connections
    ensures Shrinks(m, KeyRequest(m, id, press, env))
  {
    hide Fail, Send, Shrinks, Input.KeyStep, Released;
    FailShrinks(m, id, env.reply, env.hand);
    if id in m.inputs && press.Some? && press.value.0 <= 0xFFFF_FFFF {
      assert id in m.inputs.Keys;
      var ledger := m.inputs[id].ledger;
      var o := Input.KeyStep(m.layout, ledger, press.value.0, press.value.1,
                             Input.KeyEnv(Allowed(m, id) && env.granted && env.bounds.Some?, env.focus, env.made,
                                          env.hand.pick(ledger.keys.Values), env.hand.cursor));
      var after := Post(m, id, o.next, o.events);
      PostShrinks(m, id, o.next, o.events);
      if o.threw {
        var r := Released(after.inputs[id].ledger, env.hand);
        PostShrinks(after, id, r.next, r.events);
        ShrinksTransitive(m, after, ReleaseInput(after, id, env.hand));
        SendShrinks(ReleaseInput(after, id, env.hand), id, InputBlocked, env.reply, env.hand);
        ShrinksTransitive(m, ReleaseInput(after, id, env.hand),
                          Send(ReleaseInput(after, id, env.hand), id, InputBlocked, env.reply, env.hand));
      }
    }
  }

  /** What one step may do at most: every addition is made for a connection that was open before it. */
  ghost predicate Extends(m: Machine, r: Machine) {
    && m.used <= r.used && m.connections <= m.used
    && r.connections <= m.connections + (r.used - m.used)
    && r.objects.Keys <= m.objects.Keys + m.connections
    && AddsWire(m.wire, r.wire, m.connections, m.enabled)
    && AddsPosted(m.posted, r.posted, m.connections)
  }

  /** The stored consent is left alone, and without it no share is taken. */
  ghost predicate KeepsConsent(m: Machine, r: Machine) {
    r.enabled == m.enabled && (m.enabled || (r.captures <= m.captures && r.pending <= m.pending))
  }

  lemma ShrinksExtends(m: Machine, r: Machine)
    requires Shrinks(m, r) && m.connections <= m.used
    ensures Extends(m, r) && KeepsConsent(m, r)
  {
    hide AddsWire, AddsPosted;
  }

  /** The same step seen from a machine that differs only where no addition is made. */
  lemma ShrinksFrom(m: Machine, b: Machine, r: Machine)
    requires Shrinks(b, r) && m.connections <= m.used
    requires b.used == m.used && b.connections == m.connections && b.wire == m.wire && b.posted == m.posted
    requires b.objects.Keys <= m.objects.Keys + m.connections
    requires b.captures <= m.captures && b.pending <= m.pending && (b.enabled ==> m.enabled)
    ensures Extends(m, r) && (b.enabled == m.enabled ==> KeepsConsent(m, r))
  {
    hide AddsPosted;
  }

  lemma IncomingExtends(m: Machine, id: Id, command: Command, env: Env)
    requires Inv(m) && id in m.connections && env.now == m.clock
    ensures Extends(m, Handle(m, id, command, env)) && KeepsConsent(m, Handle(m, id, command, env))
  {
    hide Inv, Dispatch, Close, Admit, Shrinks, Extends, KeepsConsent;
    InputsOpen(m);
    if !Admitted(m, command) {
      CloseShrinks(m, id, env.hand);
      ShrinksExtends(m, Close(m, id, env.hand));
    } else {
      var rate := Admit(RateOf(m, id), env.now);
      if rate.count > LIMIT {
        CloseCounted(m, id, rate, env.hand);
        CloseShrinks(m, id, env.hand);
        ShrinksExtends(m, Close(m, id, env.hand));
      } else {
        var counted := Counted(m, id, env.now);
        CountKeeps(m, id, env.now);
        if command.Start? {
          StartExtends(m, counted, id, command.size, env);
        } else {
          DispatchShrinks(counted, id, command, env);
          ShrinksFrom(m, counted, Dispatch(counted, id, command, env));
        }
      }
    }
  }

  lemma StartExtends(m: Machine, b: Machine, id: Id, size: Option<(nat, nat)>, env: Env)
    requires m.enabled && m.connections <= m.used
    requires b == m.(rates := b.rates, served := b.served)
    ensures Extends(m, Dispatch(b, id, Start(size), env)) && KeepsConsent(m, Dispatch(b, id, Start(size), env))
  {
    hide Fail, StartRefused, Shrinks;
    if StartRefused(b, id, size, env) {
      FailShrinks(b, id, env.reply, env.hand);
      ShrinksFrom(m, b, Fail(b, id, env.reply, env.hand));
    }
  }
}
