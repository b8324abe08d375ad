/** What every event of the runtime keeps, proved one building block at a time. */
module RuntimeInvariant {
  import opened Outcomes
  import opened RequestRate
  import opened HelperProtocol
  import opened RuntimeMachine
  import Input = InputLedger
  import Life = CaptureLife

  // ----- Shares: who holds what -----

  /** Captures, inputs, reservations and pending starts all belong to open connections. */
  ghost predicate Holders(m: Machine) {
    && m.captures == m.inputs.Keys
    && m.reservations.Keys == m.captures + m.pending
    && m.captures <= m.connections && m.pending <= m.connections
    && m.rates.Keys <= m.connections
    && m.connections <= m.used && m.objects.Keys <= m.used && m.starts.Keys <= m.used
  }

  ghost predicate Limits(m: Machine) {
    && |m.connections| <= MAX_CONNECTIONS
    && |m.reservations| <= MAX_RESERVATIONS
    && Sum(m.reservations) <= PIXEL_BUDGET
  }

  ghost predicate Shares(m: Machine) {
    Holders(m) && Limits(m)
  }

  /** A capture object is stopped exactly when it has left the table of captures. */
  ghost predicate Objects(m: Machine) {
    && m.captures <= m.objects.Keys
    && (forall id :: id in m.objects ==>
          && Life.Sound(m.objects[id]) && !m.objects[id].phase.Unstarted?
          && (id in m.captures <==> !m.objects[id].stopped)
          && (id in m.connections ==> id in m.captures))
    && (forall id :: id in m.captures && id !in m.pending ==> m.objects[id].phase.Started?)
  }

  /** A pending connection is one whose start task has not returned. */
  ghost predicate Starts(m: Machine) {
    && m.pending == m.starts.Keys * m.connections
    && (forall id :: id in m.starts ==> (m.starts[id].Verifying? <==> id !in m.objects))
    && (forall id :: id in m.pending ==> (id in m.captures <==> m.starts[id].Capturing?))
  }

  /** Every open connection still has its deadline ahead of it, or has a capture that started. */
  ghost predicate Timely(m: Machine) {
    forall id :: id in m.connections && id !in m.deadlines ==> id in m.captures && id !in m.pending
  }

  ghost predicate Tasks(m: Machine) {
    Objects(m) && Starts(m) && Timely(m)
  }

  /** Without consent nothing is captured, controlled, reserved or about to be. */
  ghost predicate Consented(m: Machine) {
    m.enabled || m.captures + m.pending == {}
  }

  // ----- Input: the system holds only what an open input accounts for -----

  function Project(posted: seq<(Id, Input.Event)>, id: Id): seq<Input.Event> {
    if posted == [] then []
    else
      var last := posted[|posted| - 1];
      Project(posted[..|posted| - 1], id) + if last.0 == id then [last.1] else []
  }

  function LedgerOf(m: Machine, id: Id): Option<Input.Ledger> {
    if id in m.inputs then Some(m.inputs[id].ledger) else None
  }

  /** A live ledger accounts for what its events left held; without one nothing is left held. */
  ghost predicate Balances(layout: Input.Layout, ledger: Option<Input.Ledger>, log: seq<Input.Event>) {
    var device := Input.Replay(Input.IDLE, log);
    if ledger.Some? then Input.Accounts(layout, ledger.value, device) else device == Input.IDLE
  }

  ghost predicate Devices(m: Machine) {
    forall id :: Balances(m.layout, LedgerOf(m, id), Project(m.posted, id))
  }

  // ----- Rate: the processed requests of each connection -----

  function Times(served: seq<(Id, real)>, id: Id): seq<real> {
    if served == [] then []
    else
      var last := served[|served| - 1];
      Times(served[..|served| - 1], id) + if last.0 == id then [last.1] else []
  }

  function RateOf(m: Machine, id: Id): Option<Rate> {
    if id in m.rates then Some(m.rates[id]) else None
  }

  ghost predicate Meters(times: seq<real>, clock: real, open: bool, used: bool, rate: Option<Rate>) {
    && Served(times)
    && (times != [] ==> times[|times| - 1] <= clock)
    && (open ==> Window(times) == rate)
    && (!used ==> times == [])
  }

  ghost predicate Rates(m: Machine) {
    forall id :: Meters(Times(m.served, id), m.clock, id in m.connections, id in m.used, RateOf(m, id))
  }

  ghost predicate Inv(m: Machine) {
    Shares(m) && Tasks(m) && Devices(m) && Rates(m)
  }

  // ----- Sums -----

  lemma {:induction false} SumWithout(m: map<Id, nat>, k: Id)
    requires k in m
    ensures Sum(m) == m[k] + Sum(m - {k})
    decreases |m|
  {
    var j :| j in m && Sum(m) == m[j] + Sum(m - {j});
    if j != k {
      assert |(m - {j}).Keys| < |m.Keys| by { assert m.Keys == (m - {j}).Keys + {j}; }
      assert |(m - {k}).Keys| < |m.Keys| by { assert m.Keys == (m - {k}).Keys + {k}; }
      SumWithout(m - {j}, k);
      SumWithout(m - {k}, j);
      assert m - {j} - {k} == m - {k} - {j};
    }
  }

  lemma SumRemove(m: map<Id, nat>, id: Id)
    ensures Sum(m - {id}) <= Sum(m) && |m - {id}| <= |m|
  {
    if id in m {
      SumWithout(m, id);
      assert m.Keys == (m - {id}).Keys + {id};
    } else {
      assert m - {id} == m;
    }
  }

  lemma SumAdd(m: map<Id, nat>, id: Id, n: nat)
    requires id !in m
    ensures Sum(m[id := n]) == Sum(m) + n && |m[id := n]| == |m| + 1
  {
    hide Sum;
    var after := m[id := n];
    SumWithout(after, id);
    assert after - {id} == m;
    assert after.Keys == m.Keys + {id};
  }

  // ----- Removing a connection -----

  lemma RemoveHolders(m: Machine, id: Id, hand: Hand)
    requires Holders(m) && Objects(m)
    ensures Holders(Remove(m, id, hand))
  {
    var r := Remove(m, id, hand);
    assert r.reservations.Keys == m.reservations.Keys - {id};
    assert (m.captures + m.pending) - {id} == r.captures + r.pending;
    assert r.objects.Keys == m.objects.Keys;
    assert r.rates.Keys == m.rates.Keys - {id};
  }

  lemma RemoveLimits(m: Machine, id: Id, hand: Hand)
    requires Limits(m)
    ensures Limits(Remove(m, id, hand))
  {
    Input.Subset(m.connections - {id}, m.connections);
    SumRemove(m.reservations, id);
  }

  lemma RemoveObjects(m: Machine, id: Id, hand: Hand)
    requires Objects(m)
    ensures Objects(Remove(m, id, hand))
  {
    if id in m.captures {
      StopKeepsSound(m.objects[id]);
    }
  }

  lemma RemoveStarts(m: Machine, id: Id, hand: Hand)
    requires Starts(m) && Objects(m)
    ensures Starts(Remove(m, id, hand))
  {
  }

  lemma RemoveTimely(m: Machine, id: Id, hand: Hand)
    requires Timely(m)
    ensures Timely(Remove(m, id, hand))
  {
  }

  lemma StopKeepsSound(c: Life.Capture)
    requires Life.Sound(c)
    ensures Life.Sound(Life.StopNow(c)) && Life.StopNow(c).stopped && Life.StopNow(c).phase == c.phase
  {
  }

  lemma {:induction false} ProjectTag(posted: seq<(Id, Input.Event)>, id: Id, events: seq<Input.Event>, x: Id)
    ensures Project(posted + Tag(id, events), x) == Project(posted, x) + if x == id then events else []
  {
    if events == [] {
      assert posted + Tag(id, events) == posted;
    } else {
      var front, last := events[..|events| - 1], events[|events| - 1];
      ProjectTag(posted, id, front, x);
      var all := posted + Tag(id, events);
      assert all[..|all| - 1] == posted + Tag(id, front);
      assert all[|all| - 1] == (id, last);
      assert events == front + [last];
    }
  }

  lemma DevicesFrame(m: Machine, r: Machine)
    requires Devices(m) && r.layout == m.layout && r.inputs == m.inputs && r.posted == m.posted
    ensures Devices(r)
  {
    forall id ensures Balances(r.layout, LedgerOf(r, id), Project(r.posted, id)) {
      assert Balances(m.layout, LedgerOf(m, id), Project(m.posted, id));
      assert LedgerOf(r, id) == LedgerOf(m, id);
    }
  }

  lemma RatesFrame(m: Machine, r: Machine)
    requires Rates(m) && r.served == m.served && r.clock == m.clock && r.used == m.used
    requires r.connections <= m.connections
    requires forall id :: id in r.connections ==> RateOf(r, id) == RateOf(m, id)
    ensures Rates(r)
  {
    forall id ensures Meters(Times(r.served, id), r.clock, id in r.connections, id in r.used, RateOf(r, id)) {
      assert Meters(Times(m.served, id), m.clock, id in m.connections, id in m.used, RateOf(m, id));
    }
  }

  lemma BalancesAppend(layout: Input.Layout, ledger: Option<Input.Ledger>, log: seq<Input.Event>, events: seq<Input.Event>)
    requires if ledger.Some? then Input.Accounts(layout, ledger.value, Input.Replay(Input.Replay(Input.IDLE, log), events))
             else Input.Replay(Input.Replay(Input.IDLE, log), events) == Input.IDLE
    ensures Balances(layout, ledger, log + events)
  {
    Input.ReplayAppend(Input.IDLE, log, events);
  }

  /** One input's events leave the devices of all the others alone. */
  lemma DevicesAppend(m: Machine, r: Machine, id: Id, events: seq<Input.Event>)
    requires Devices(m) && r.layout == m.layout && r.posted == m.posted + Tag(id, events)
    requires forall x :: x != id ==> LedgerOf(r, x) == LedgerOf(m, x)
    requires Balances(m.layout, LedgerOf(r, id), Project(m.posted, id) + events)
    ensures Devices(r)
  {
    forall x ensures Balances(r.layout, LedgerOf(r, x), Project(r.posted, x)) {
      ProjectTag(m.posted, id, events, x);
      if x != id {
        assert Balances(m.layout, LedgerOf(m, x), Project(m.posted, x));
        assert Project(m.posted, x) + [] == Project(m.posted, x);
      }
    }
  }

  /** Posting an operation whose ledger accounts for its events keeps every device balanced. */
  lemma PostDevices(m: Machine, id: Id, ledger: Input.Ledger, events: seq<Input.Event>)
    requires Devices(m) && id in m.inputs
    requires var device := Input.Replay(Input.IDLE, Project(m.posted, id));
             Input.Accounts(m.layout, ledger, Input.Replay(device, events))
    ensures Devices(Post(m, id, ledger, events))
  {
    var r := Post(m, id, ledger, events);
    BalancesAppend(m.layout, Some(ledger), Project(m.posted, id), events);
    assert LedgerOf(r, id) == Some(ledger);
    DevicesAppend(m, r, id, events);
  }

  lemma ReleaseBalances(m: Machine, id: Id, hand: Hand)
    requires Devices(m) && id in m.inputs && Walks(hand)
    ensures var o := Released(m.inputs[id].ledger, hand);
            var device := Input.Replay(Input.IDLE, Project(m.posted, id));
            Input.Replay(device, o.events) == Input.IDLE && Input.Accounts(m.layout, o.next, Input.IDLE)
  {
    LedgerAccounts(m, id);
    var ledger := m.inputs[id].ledger;
    Input.ReleaseAccounts(m.layout, ledger, Input.Replay(Input.IDLE, Project(m.posted, id)),
                          hand.pick(ledger.keys.Values), hand.cursor);
  }

  lemma RemoveDevices(m: Machine, id: Id, hand: Hand)
    requires Devices(m) && Walks(hand)
    ensures Devices(Remove(m, id, hand))
  {
    hide Devices, Balances, Input.Accounts, Input.Replay, Released, Project;
    var r := Remove(m, id, hand);
    if id in m.inputs {
      ReleaseBalances(m, id, hand);
      var events := Released(m.inputs[id].ledger, hand).events;
      BalancesAppend(m.layout, None, Project(m.posted, id), events);
      DevicesAppend(m, r, id, events);
    } else {
      assert m.posted + [] == m.posted;
      assert r.inputs == m.inputs;
      DevicesFrame(m, r);
    }
  }

  lemma RemoveRates(m: Machine, id: Id, hand: Hand)
    requires Rates(m)
    ensures Rates(Remove(m, id, hand))
  {
    RatesFrame(m, Remove(m, id, hand));
  }

  /** Shares and tasks look at neither the ledgers nor the logs. */
  lemma SharesFrame(m: Machine, r: Machine)
    requires Shares(m) && Tasks(m)
    requires r.captures == m.captures && r.inputs.Keys == m.inputs.Keys && r.reservations == m.reservations
    requires r.pending == m.pending && r.connections == m.connections
    requires r.rates.Keys == m.rates.Keys || r.rates.Keys <= m.connections
    requires r.used == m.used && r.objects == m.objects && r.starts == m.starts && r.deadlines == m.deadlines
    ensures Shares(r) && Tasks(r)
  {
  }

  lemma RemoveKeeps(m: Machine, id: Id, hand: Hand)
    requires Inv(m) && Walks(hand)
    ensures Inv(Remove(m, id, hand))
  {
    hide Holders, Limits, Objects, Starts, Timely, Devices, Rates, Remove;
    RemoveHolders(m, id, hand);
    RemoveLimits(m, id, hand);
    RemoveObjects(m, id, hand);
    RemoveStarts(m, id, hand);
    RemoveTimely(m, id, hand);
    RemoveDevices(m, id, hand);
    RemoveRates(m, id, hand);
  }

  lemma WireKeeps(m: Machine, wire: seq<(Id, Message)>)
    requires Inv(m)
    ensures Inv(m.(wire := wire))
  {
    hide Shares, Tasks, Devices, Rates;
    DevicesFrame(m, m.(wire := wire));
    RatesFrame(m, m.(wire := wire));
    SharesFrame(m, m.(wire := wire));
  }

  lemma CloseKeeps(m: Machine, id: Id, hand: Hand)
    requires Inv(m) && Walks(hand)
    ensures Inv(Close(m, id, hand))
  {
    hide Inv;
    if id in m.connections { RemoveKeeps(m, id, hand); }
  }

  lemma SendKeeps(m: Machine, id: Id, message: Message, reply: Reply, hand: Hand)
    requires Inv(m) && Walks(hand)
    ensures Inv(Send(m, id, message, reply, hand))
  {
    hide Inv;
    var sent := m.(wire := m.wire + [(id, message)]);
    WireKeeps(m, sent.wire);
    CloseKeeps(sent, id, hand);
    CloseKeeps(m, id, hand);
  }

  lemma FailKeeps(m: Machine, id: Id, reply: Reply, hand: Hand)
    requires Inv(m) && Walks(hand)
    ensures Inv(Fail(m, id, reply, hand))
  {
    hide Inv;
    SendKeeps(m, id, ErrorReply, reply, hand);
    CloseKeeps(Send(m, id, ErrorReply, reply, hand), id, hand);
  }

  lemma {:induction false} CloseAllKeeps(m: Machine, ids: seq<Id>, hand: Hand)
    requires Inv(m) && Walks(hand)
    ensures Inv(CloseAll(m, ids, hand))
  {
    if ids != [] {
      CloseAllKeeps(m, ids[..|ids| - 1], hand);
      CloseKeeps(CloseAll(m, ids[..|ids| - 1], hand), ids[|ids| - 1], hand);
    }
  }

  lemma LedgerAccounts(m: Machine, id: Id)
    requires Devices(m) && id in m.inputs
    ensures Input.Accounts(m.layout, m.inputs[id].ledger, Input.Replay(Input.IDLE, Project(m.posted, id)))
  {
    hide Input.Accounts, Input.Replay, Project;
    assert Balances(m.layout, LedgerOf(m, id), Project(m.posted, id));
  }

  lemma PostKeeps(m: Machine, id: Id, ledger: Input.Ledger, events: seq<Input.Event>)
    requires Inv(m) && id in m.inputs
    requires var device := Input.Replay(Input.IDLE, Project(m.posted, id));
             Input.Accounts(m.layout, ledger, Input.Replay(device, events))
    ensures Inv(Post(m, id, ledger, events))
  {
    hide Shares, Tasks, Devices, Rates;
    var r := Post(m, id, ledger, events);
    PostDevices(m, id, ledger, events);
    assert r.inputs.Keys == m.inputs.Keys;
    RatesFrame(m, r);
    SharesFrame(m, r);
  }

  lemma ReleaseInputKeeps(m: Machine, id: Id, hand: Hand)
    requires Inv(m) && id in m.inputs && Walks(hand)
    ensures Inv(ReleaseInput(m, id, hand))
  {
    hide Shares, Tasks, Rates;
    ReleaseBalances(m, id, hand);
    var o := Released(m.inputs[id].ledger, hand);
    PostKeeps(m, id, o.next, o.events);
  }

  // ----- Requests -----

  lemma ReserveHolders(m: Machine, id: Id, pixels: nat, task: Task)
    requires Holders(m) && id in m.connections
    requires id !in m.captures && id !in m.pending
    ensures Holders(Reserve(m, id, pixels, task))
  {
    var r := Reserve(m, id, pixels, task);
    assert r.reservations.Keys == m.reservations.Keys + {id};
    assert r.starts.Keys == m.starts.Keys + {id};
  }

  lemma ReserveTasks(m: Machine, id: Id, pixels: nat, task: Task)
    requires Tasks(m) && id in m.connections && task.Verifying?
    requires id !in m.captures && id !in m.pending
    ensures Tasks(Reserve(m, id, pixels, task))
  {
    var r := Reserve(m, id, pixels, task);
    assert r.starts.Keys == m.starts.Keys + {id};
    assert id !in m.objects;
  }

  /** A reservation within the limits, for a connection that holds nothing yet. */
  lemma ReserveKeeps(m: Machine, id: Id, pixels: nat, task: Task)
    requires Inv(m) && id in m.connections && task.Verifying?
    requires id !in m.captures && id !in m.pending
    requires |m.reservations| < MAX_RESERVATIONS && Sum(m.reservations) + pixels <= PIXEL_BUDGET
    ensures Inv(Reserve(m, id, pixels, task))
  {
    hide Starts, Timely, Devices, Rates, Sum;
    var r := Reserve(m, id, pixels, task);
    ReserveHolders(m, id, pixels, task);
    ReserveTasks(m, id, pixels, task);
    assert id !in m.reservations.Keys;
    SumAdd(m.reservations, id, pixels);
    DevicesFrame(m, r);
    RatesFrame(m, r);
  }

  lemma StartRequestKeeps(m: Machine, id: Id, size: Option<(nat, nat)>, env: Env)
    requires Inv(m) && id in m.connections && Walks(env.hand)
    ensures Inv(StartRequest(m, id, size, env))
  {
    hide Inv;
    if StartRefused(m, id, size, env) {
      FailKeeps(m, id, env.reply, env.hand);
    } else {
      ReserveKeeps(m, id, size.value.0 * size.value.1, Verifying(size.value.0, size.value.1));
    }
  }

  lemma PointerRequestKeeps(m: Machine, id: Id, at: Option<(nat, nat, nat)>, env: Env)
    requires Inv(m) && Walks(env.hand)
    ensures Inv(PointerRequest(m, id, at, env))
  {
    hide Shares, Tasks, Rates, Devices, Fail, Input.PointerStep, Input.Accounts, Input.Replay, Project;
    FailKeeps(m, id, env.reply, env.hand);
    if id in m.inputs && at.Some? {
      var pad := m.inputs[id];
      var bounds := if Allowed(m, id) && env.granted then env.bounds else None;
      var o := Input.PointerStep(pad.ledger, pad.width, pad.height, at.value.0, at.value.1, at.value.2, bounds);
      LedgerAccounts(m, id);
      Input.PointerAccounts(m.layout, pad.ledger, Input.Replay(Input.IDLE, Project(m.posted, id)),
                            pad.width, pad.height, at.value.0, at.value.1, at.value.2, bounds);
      PostKeeps(m, id, o.next, o.events);
    }
  }

  lemma KeyRequestKeeps(m: Machine, id: Id, press: Option<(nat, bool)>, env: Env)
    requires Inv(m) && Walks(env.hand)
    ensures Inv(KeyRequest(m, id, press, env))
  {
    hide Shares, Tasks, Rates, Devices, Fail, Send, Input.KeyStep, Input.Accounts, Input.Replay, Project;
    FailKeeps(m, id, env.reply, env.hand);
    if id in m.inputs && press.Some? && press.value.0 <= 0xFFFF_FFFF {
      var ledger := m.inputs[id].ledger;
      var keyEnv := Input.KeyEnv(Allowed(m, id) && env.granted && env.bounds.Some?, env.focus, env.made,
                                 env.hand.pick(ledger.keys.Values), env.hand.cursor);
      var o := Input.KeyStep(m.layout, ledger, press.value.0, press.value.1, keyEnv);
      LedgerAccounts(m, id);
      Input.KeyAccounts(m.layout, ledger, Input.Replay(Input.IDLE, Project(m.posted, id)),
                        press.value.0, press.value.1, keyEnv);
      PostKeeps(m, id, o.next, o.events);
      if o.threw {
        var after := Post(m, id, o.next, o.events);
        ReleaseInputKeeps(after, id, env.hand);
        SendKeeps(ReleaseInput(after, id, env.hand), id, InputBlocked, env.reply, env.hand);
      }
    }
  }

  lemma DispatchKeeps(m: Machine, id: Id, command: Command, env: Env)
    requires Inv(m) && id in m.connections && Walks(env.hand)
    ensures Inv(Dispatch(m, id, command, env))
  {
    hide Inv;
    match command
    case Status => SendKeeps(m, id, StatusReply, env.reply, env.hand);
    case Start(size) => StartRequestKeeps(m, id, size, env);
    case Pointer(at) => PointerRequestKeeps(m, id, at, env);
    case Key(press) => KeyRequestKeeps(m, id, press, env);
    case Release => if id in m.inputs { ReleaseInputKeeps(m, id, env.hand); }
    case Stop => CloseKeeps(m, id, env.hand);
    case RescueCursor => SendKeeps(m, id, Rescued, env.reply, env.hand);
    case Unknown => FailKeeps(m, id, env.reply, env.hand);
    case Malformed => CloseKeeps(m, id, env.hand);
  }

  lemma TimesSnoc(served: seq<(Id, real)>, id: Id, now: real, x: Id)
    ensures Times(served + [(id, now)], x) == Times(served, x) + if x == id then [now] else []
  {
    assert (served + [(id, now)])[..|served|] == served;
  }

  function Counted(m: Machine, id: Id, now: real): Machine {
    m.(rates := m.rates[id := Admit(RateOf(m, id), now)], served := m.served + [(id, now)])
  }

  lemma CountRates(m: Machine, id: Id, now: real)
    requires Rates(m) && id in m.connections && id in m.used && now == m.clock
    requires Admit(RateOf(m, id), now).count <= LIMIT
    ensures Rates(Counted(m, id, now))
  {
    hide Served, Window, Times, Admit;
    var r := Counted(m, id, now);
    forall x ensures Meters(Times(r.served, x), r.clock, x in r.connections, x in r.used, RateOf(r, x)) {
      assert Meters(Times(m.served, x), m.clock, x in m.connections, x in m.used, RateOf(m, x));
      TimesSnoc(m.served, id, now, x);
      if x == id {
        ServedSnoc(Times(m.served, id), now);
      } else {
        assert Times(m.served, x) + [] == Times(m.served, x);
      }
    }
  }

  /** A request that passes the cap is counted and recorded. */
  lemma CountKeeps(m: Machine, id: Id, now: real)
    requires Inv(m) && id in m.connections && now == m.clock
    requires Admit(RateOf(m, id), now).count <= LIMIT
    ensures Inv(Counted(m, id, now))
  {
    hide Shares, Tasks, Devices, Rates, Admit;
    CountShares(m, id, now);
    CountRates(m, id, now);
    DevicesFrame(m, Counted(m, id, now));
  }

  lemma CountShares(m: Machine, id: Id, now: real)
    requires Shares(m) && Tasks(m) && id in m.connections
    ensures Shares(Counted(m, id, now)) && Tasks(Counted(m, id, now))
    ensures id in m.used
  {
    hide Admit, Tasks, Limits;
    var r := Counted(m, id, now);
    assert r.rates.Keys == m.rates.Keys + {id};
    SharesFrame(m, r);
  }

  /** The request that exceeds the cap closes the connection, and with it the count. */
  lemma CloseCounted(m: Machine, id: Id, rate: Rate, hand: Hand)
    ensures id in m.connections ==> Close(m.(rates := m.rates[id := rate]), id, hand) == Close(m, id, hand)
  {
    assert m.rates[id := rate] - {id} == m.rates - {id};
  }

  lemma ServedSnoc(times: seq<real>, now: real)
    requires Served(times) && (times != [] ==> times[|times| - 1] <= now)
    requires Admit(Window(times), now).count <= LIMIT
    ensures Served(times + [now]) && Window(times + [now]) == Some(Admit(Window(times), now))
  {
    assert (times + [now])[..|times + [now]| - 1] == times;
  }

  lemma ClockKeeps(m: Machine, now: real)
    requires Inv(m) && now >= m.clock
    ensures Inv(m.(clock := now))
  {
    hide Shares, Tasks, Devices;
    var r := m.(clock := now);
    SharesFrame(m, r);
    DevicesFrame(m, r);
    forall x ensures Meters(Times(r.served, x), r.clock, x in r.connections, x in r.used, RateOf(r, x)) {
      assert Meters(Times(m.served, x), m.clock, x in m.connections, x in m.used, RateOf(m, x));
    }
  }

  lemma HandleKeeps(m: Machine, id: Id, command: Command, env: Env)
    requires Inv(m) && id in m.connections && env.now == m.clock && Walks(env.hand)
    ensures Inv(Handle(m, id, command, env))
  {
    hide Inv, Dispatch, Close, Admit;
    if !Admitted(m, command) {
      CloseKeeps(m, id, env.hand);
    } else {
      var rate := Admit(RateOf(m, id), env.now);
      if rate.count > LIMIT {
        CloseCounted(m, id, rate, env.hand);
        CloseKeeps(m, id, env.hand);
      } else {
        CountKeeps(m, id, env.now);
        DispatchKeeps(Counted(m, id, env.now), id, command, env);
      }
    }
  }

  // ----- Starting a capture, and what becomes of it -----

  lemma ReturnTasks(m: Machine, id: Id)
    requires Tasks(m) && id in m.starts && id !in m.connections
    ensures Tasks(m.(starts := m.starts - {id}))
  {
    var r := m.(starts := m.starts - {id});
    assert r.starts.Keys == m.starts.Keys - {id};
    assert r.starts.Keys * r.connections == m.starts.Keys * m.connections;
  }

  /** A task that returns without having been waited for: its connection is gone. */
  lemma ReturnKeeps(m: Machine, id: Id)
    requires Inv(m) && id in m.starts && id !in m.connections
    ensures Inv(m.(starts := m.starts - {id}))
  {
    hide Tasks, Devices, Rates, Sum;
    var r := m.(starts := m.starts - {id});
    ReturnTasks(m, id);
    DevicesFrame(m, r);
    RatesFrame(m, r);
  }

  /** Failing a connection that is still open is closing it, with at most one more message sent. */
  lemma FailIsClose(m: Machine, id: Id, reply: Reply, hand: Hand)
    ensures var wire := if id in m.connections && !reply.Refused? then m.wire + [(id, ErrorReply)] else m.wire;
            Fail(m, id, reply, hand) == Close(m.(wire := wire), id, hand)
  {
    hide Remove;
    CloseGone(m, id, hand);
    CloseGone(m.(wire := m.wire + [(id, ErrorReply)]), id, hand);
  }

  lemma CloseGone(m: Machine, id: Id, hand: Hand)
    ensures var r := Close(m, id, hand);
            id !in r.connections && r.starts == m.starts && r.objects.Keys == m.objects.Keys
  {
    hide Tag, Released, Life.StopNow;
  }

  lemma CloseStarts(m: Machine, id: Id, starts: map<Id, Task>, hand: Hand)
    ensures Close(m.(starts := starts), id, hand) == Close(m, id, hand).(starts := starts)
  {
    hide Tag, Released, Life.StopNow;
  }

  /** Failing a start closes its connection, so the start can be forgotten before or after. */
  lemma FailReturns(m: Machine, id: Id, reply: Reply, hand: Hand)
    ensures Fail(m.(starts := m.starts - {id}), id, reply, hand)
            == var f := Fail(m, id, reply, hand); f.(starts := f.starts - {id})
  {
    hide Close, Fail;
    FailIsClose(m, id, reply, hand);
    FailIsClose(m.(starts := m.starts - {id}), id, reply, hand);
    var wire := if id in m.connections && !reply.Refused? then m.wire + [(id, ErrorReply)] else m.wire;
    CloseStarts(m.(wire := wire), id, m.starts - {id}, hand);
    CloseGone(m.(wire := wire), id, hand);
  }

  lemma FailGone(m: Machine, id: Id, reply: Reply, hand: Hand)
    ensures var f := Fail(m, id, reply, hand);
            id !in f.connections && f.starts == m.starts && f.objects.Keys == m.objects.Keys
  {
    hide Close, Fail;
    FailIsClose(m, id, reply, hand);
    var wire := if id in m.connections && !reply.Refused? then m.wire + [(id, ErrorReply)] else m.wire;
    CloseGone(m.(wire := wire), id, hand);
  }

  lemma FailAndReturnKeeps(m: Machine, id: Id, reply: Reply, hand: Hand)
    requires Inv(m) && id in m.starts && Walks(hand)
    ensures Inv(Fail(m.(starts := m.starts - {id}), id, reply, hand))
  {
    hide Inv, Fail;
    FailKeeps(m, id, reply, hand);
    FailReturns(m, id, reply, hand);
    FailGone(m, id, reply, hand);
    ReturnKeeps(Fail(m, id, reply, hand), id);
  }

  function Created(m: Machine, id: Id, width: nat, height: nat, permitted: bool): Machine {
    m.(captures := m.captures + {id},
       objects := m.objects[id := Life.Step(Life.NEW, Life.Begin(permitted)).next],
       inputs := m.inputs[id := Pad(Input.FRESH, width, height)],
       starts := m.starts[id := Capturing])
  }

  lemma CreateHolders(m: Machine, id: Id, width: nat, height: nat, permitted: bool)
    requires Holders(m) && Starts(m) && id in m.starts && m.starts[id].Verifying? && id in m.connections
    ensures Holders(Created(m, id, width, height, permitted))
    ensures id !in m.inputs
  {
    var r := Created(m, id, width, height, permitted);
    assert r.inputs.Keys == m.inputs.Keys + {id};
    assert r.objects.Keys == m.objects.Keys + {id};
    assert r.starts.Keys == m.starts.Keys;
    assert id in m.pending;
    assert r.captures + r.pending == m.captures + m.pending;
  }

  lemma CreateTasks(m: Machine, id: Id, width: nat, height: nat, permitted: bool)
    requires Tasks(m) && id in m.starts && m.starts[id].Verifying? && id in m.connections
    ensures Tasks(Created(m, id, width, height, permitted))
  {
    var r := Created(m, id, width, height, permitted);
    assert r.starts.Keys == m.starts.Keys;
    assert id in m.pending;
  }

  lemma CreateDevices(m: Machine, id: Id, width: nat, height: nat, permitted: bool)
    requires Devices(m) && id !in m.inputs
    ensures Devices(Created(m, id, width, height, permitted))
  {
    hide Project;
    var r := Created(m, id, width, height, permitted);
    forall x ensures Balances(r.layout, LedgerOf(r, x), Project(r.posted, x)) {
      assert Balances(m.layout, LedgerOf(m, x), Project(m.posted, x));
      if x == id { assert LedgerOf(m, id) == None && Input.Held(0) == {}; } else { assert LedgerOf(r, x) == LedgerOf(m, x); }
    }
  }

  lemma TasksStarts(m: Machine)
    requires Tasks(m)
    ensures Starts(m)
  {
  }

  lemma CreateKeeps(m: Machine, id: Id, width: nat, height: nat, permitted: bool)
    requires Inv(m) && id in m.starts && m.starts[id].Verifying? && id in m.connections
    ensures Inv(Created(m, id, width, height, permitted))
  {
    hide Tasks, Devices, Rates, Sum, Holders, Starts;
    TasksStarts(m);
    CreateHolders(m, id, width, height, permitted);
    CreateTasks(m, id, width, height, permitted);
    CreateDevices(m, id, width, height, permitted);
    RatesFrame(m, Created(m, id, width, height, permitted));
  }

  lemma VerifiedKeeps(m: Machine, id: Id, ok: bool, located: bool, granted: bool, reply: Reply, hand: Hand)
    requires Inv(m) && Consented(m) && id in m.starts && m.starts[id].Verifying? && Walks(hand)
    ensures Inv(AfterVerify(m, id, ok, located, granted, reply, hand))
  {
    hide Shares, Devices, Rates, Fail;
    if !ok || (Allowed(m, id) && !located) {
      FailAndReturnKeeps(m, id, reply, hand);
    } else if !Allowed(m, id) {
      assert id !in m.connections;
      ReturnKeeps(m, id);
    } else {
      CreateKeeps(m, id, m.starts[id].width, m.starts[id].height, granted && Allowed(m, id));
    }
  }

  /** Moving a capture along, without stopping it, keeps every share. */
  lemma MoveTasks(m: Machine, id: Id, c: Life.Capture)
    requires Tasks(m) && id in m.objects && Life.Sound(c) && !c.phase.Unstarted?
    requires c.stopped == m.objects[id].stopped
    requires m.objects[id].phase.Started? ==> c.phase.Started?
    ensures Tasks(m.(objects := m.objects[id := c]))
  {
  }

  lemma MoveKeeps(m: Machine, id: Id, c: Life.Capture)
    requires Inv(m) && id in m.objects && Life.Sound(c) && !c.phase.Unstarted?
    requires c.stopped == m.objects[id].stopped
    requires m.objects[id].phase.Started? ==> c.phase.Started?
    ensures Inv(m.(objects := m.objects[id := c]))
  {
    hide Tasks, Devices, Rates, Sum;
    var r := m.(objects := m.objects[id := c]);
    assert r.objects.Keys == m.objects.Keys;
    MoveTasks(m, id, c);
    DevicesFrame(m, r);
    RatesFrame(m, r);
  }

  lemma CloseObjects(m: Machine, id: Id, c: Life.Capture, hand: Hand)
    requires id in m.objects && id in m.captures && id in m.connections && c == Life.StopNow(c)
    ensures var closed := Close(m, id, hand);
            && Close(m.(objects := m.objects[id := c]), id, hand) == closed.(objects := closed.objects[id := c])
            && closed.objects[id] == Life.StopNow(m.objects[id])
  {
    hide Tag, Released;
    assert m.objects[id := c][id := Life.StopNow(c)] == m.objects[id := Life.StopNow(m.objects[id])][id := c];
  }

  /** A capture that stops itself and reports its loss ends exactly as if its connection had closed. */
  lemma LossKeeps(m: Machine, id: Id, c: Life.Capture, reply: Reply, hand: Hand)
    requires Inv(m) && id in m.objects && Life.Sound(c) && !c.phase.Unstarted? && Walks(hand)
    requires !m.objects[id].stopped && c.stopped
    requires m.objects[id].phase.Started? ==> c.phase.Started?
    ensures Inv(Fail(m.(objects := m.objects[id := c]), id, reply, hand))
  {
    hide Inv, Close, Fail;
    OwnerIsOpen(m, id);
    FailIsClose(m.(objects := m.objects[id := c]), id, reply, hand);
    var wire := if !reply.Refused? then m.wire + [(id, ErrorReply)] else m.wire;
    var sent := m.(wire := wire);
    WireKeeps(m, wire);
    CloseKeeps(sent, id, hand);
    CloseObjects(sent, id, c, hand);
    CloseGone(sent, id, hand);
    StopKeepsSound(m.objects[id]);
    MoveKeeps(Close(sent, id, hand), id, c);
  }

  /** A capture nobody has stopped belongs to an open connection. */
  lemma OwnerIsOpen(m: Machine, id: Id)
    requires Inv(m) && id in m.objects && !m.objects[id].stopped
    ensures id in m.captures && id in m.connections && Life.Sound(m.objects[id])
  {
  }
}
