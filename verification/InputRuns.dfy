/**
 Every run of the input ledger: no key is left down, buttons alternate, scrolls are rising edges,
 and the pointer stays on the display (native/display-helper/Input.swift).
 */
module InputRuns {
  import opened Outcomes
  import opened InputLedger

  // ----- Runs -----

  datatype Display = Display(layout: Layout, width: int, height: int)

  datatype Op =
    | PointerOp(x: int, y: int, mask: int, bounds: Option<Rect>)
    | KeyOp(symbol: Symbol, down: bool, env: KeyEnv)
    | ReleaseOp(order: seq<Code>, cursor: Point)

  function Apply(display: Display, s: Ledger, op: Op): Outcome {
    match op
    case PointerOp(x, y, mask, bounds) => PointerStep(s, display.width, display.height, x, y, mask, bounds)
    case KeyOp(symbol, down, env) => KeyStep(display.layout, s, symbol, down, env)
    case ReleaseOp(order, cursor) => ReleaseStep(s, order, cursor)
  }

  /** The environment's choices fit the ledger: a release walks the codes that are held. */
  ghost predicate Fits(s: Ledger, op: Op) {
    match op
    case PointerOp(_, _, _, _) => true
    case KeyOp(_, _, env) => Lists(env.order, s.keys.Values)
    case ReleaseOp(order, _) => Lists(order, s.keys.Values)
  }

  datatype Trace = Trace(ledger: Ledger, log: seq<Event>)

  function Run(display: Display, ops: seq<Op>): Trace {
    if ops == [] then Trace(FRESH, [])
    else
      var t := Run(display, ops[..|ops| - 1]);
      var o := Apply(display, t.ledger, ops[|ops| - 1]);
      Trace(o.next, t.log + o.events)
  }

  ghost predicate Lawful(display: Display, ops: seq<Op>) {
    ops == [] || (Lawful(display, ops[..|ops| - 1]) && Fits(Run(display, ops[..|ops| - 1]).ledger, ops[|ops| - 1]))
  }

  lemma ApplyAccounts(display: Display, s: Ledger, d: Device, op: Op)
    requires Accounts(display.layout, s, d) && Fits(s, op)
    ensures var o := Apply(display, s, op); Accounts(display.layout, o.next, Replay(d, o.events))
  {
    match op
    case PointerOp(x, y, mask, bounds) =>
      PointerAccounts(display.layout, s, d, display.width, display.height, x, y, mask, bounds);
    case KeyOp(symbol, down, env) => KeyAccounts(display.layout, s, d, symbol, down, env);
    case ReleaseOp(order, cursor) => ReleaseAccounts(display.layout, s, d, order, cursor);
  }

  /** In every run the ledger accounts for everything the operating system believes is held. */
  lemma {:induction false} RunAccounts(display: Display, ops: seq<Op>)
    requires Lawful(display, ops)
    ensures var t := Run(display, ops); Accounts(display.layout, t.ledger, Replay(IDLE, t.log))
  {
    if ops != [] {
      var front, op := ops[..|ops| - 1], ops[|ops| - 1];
      RunAccounts(display, front);
      var t := Run(display, front);
      ApplyAccounts(display, t.ledger, Replay(IDLE, t.log), op);
      ReplayAppend(IDLE, t.log, Apply(display, t.ledger, op).events);
    }
  }

  // ----- No stuck keys -----

  /** The last event posted for this key of this process is a key-down. */
  predicate LastIsDown(log: seq<Event>, pid: Pid, code: Code) {
    log != [] &&
    match log[|log| - 1]
    case KeyDown(p, c, _, _) => (p == pid && c == code) || LastIsDown(log[..|log| - 1], pid, code)
    case KeyUp(p, c, _, _) => !(p == pid && c == code) && LastIsDown(log[..|log| - 1], pid, code)
    case _ => LastIsDown(log[..|log| - 1], pid, code)
  }

  lemma {:induction false} LastIsDownReplays(log: seq<Event>, pid: Pid, code: Code)
    ensures LastIsDown(log, pid, code) <==> (pid, code) in Replay(IDLE, log).keys
  {
    if log != [] {
      LastIsDownReplays(log[..|log| - 1], pid, code);
    }
  }

  /** A key left down belongs to the current target and is the code of a symbol still held. */
  lemma NoStuckKeys(display: Display, ops: seq<Op>, pid: Pid, code: Code)
    requires Lawful(display, ops)
    requires LastIsDown(Run(display, ops).log, pid, code)
    ensures var s := Run(display, ops).ledger;
            s.target == Some(pid) && exists k :: k in s.keys && s.keys[k] == code && display.layout.code(k) == code
  {
    var t := Run(display, ops);
    RunAccounts(display, ops);
    LastIsDownReplays(t.log, pid, code);
    assert code in t.ledger.keys.Values;
  }

  /** After a release no key of any process is down and every button is up. */
  lemma ReleaseFreesEverything(display: Display, ops: seq<Op>, order: seq<Code>, cursor: Point)
    requires Lawful(display, ops + [ReleaseOp(order, cursor)])
    ensures var log := Run(display, ops + [ReleaseOp(order, cursor)]).log;
            (forall pid, code :: !LastIsDown(log, pid, code)) && Replay(IDLE, log).buttons == {}
  {
    var all := ops + [ReleaseOp(order, cursor)];
    assert all[..|all| - 1] == ops;
    var t := Run(display, ops);
    RunAccounts(display, ops);
    ReleaseAccounts(display.layout, t.ledger, Replay(IDLE, t.log), order, cursor);
    ReplayAppend(IDLE, t.log, ReleaseStep(t.ledger, order, cursor).events);
    forall pid, code ensures !LastIsDown(Run(display, all).log, pid, code) {
      LastIsDownReplays(Run(display, all).log, pid, code);
    }
  }

  // ----- Buttons alternate -----

  /** The presses (true) and lifts (false) of one button, in order. */
  function ButtonLog(log: seq<Event>, b: Button): seq<bool> {
    if log == [] then []
    else
      ButtonLog(log[..|log| - 1], b) +
      match log[|log| - 1]
      case Pressed(x, _) => if x == b then [true] else []
      case Lifted(x, _) => if x == b then [false] else []
      case _ => []
  }

  lemma {:induction false} WellFormedAlternates(log: seq<Event>, b: Button)
    requires Replay(IDLE, log).wellFormed
    ensures forall i :: 0 <= i < |ButtonLog(log, b)| ==> ButtonLog(log, b)[i] == (i % 2 == 0)
    ensures |ButtonLog(log, b)| % 2 == (if b in Replay(IDLE, log).buttons then 1 else 0)
  {
    if log != [] {
      WellFormedAlternates(log[..|log| - 1], b);
    }
  }

  /**
   Per button the posted events go down, up, down, up, ...; the last one is a press exactly when the
   mask holds that button.
   */
  lemma ButtonsAlternate(display: Display, ops: seq<Op>, b: Button)
    requires Lawful(display, ops)
    ensures var posted := ButtonLog(Run(display, ops).log, b);
            && (forall i :: 0 <= i < |posted| ==> posted[i] == (i % 2 == 0))
            && |posted| % 2 == (if b in Held(Run(display, ops).ledger.buttons) then 1 else 0)
  {
    RunAccounts(display, ops);
    WellFormedAlternates(Run(display, ops).log, b);
  }

  // ----- Scrolls are rising edges -----

  function CountScrolls(log: seq<Event>, w: Wheel): nat {
    if log == [] then 0
    else CountScrolls(log[..|log| - 1], w) + if log[|log| - 1] == Scrolled(w) then 1 else 0
  }

  predicate Rises(before: set<Wheel>, after: set<Wheel>, w: Wheel) {
    w in after && w !in before
  }

  function RisingEdges(display: Display, ops: seq<Op>, w: Wheel): nat {
    if ops == [] then 0
    else
      var front := ops[..|ops| - 1];
      RisingEdges(display, front, w)
      + if Rises(Turned(Run(display, front).ledger.buttons), Turned(Run(display, ops).ledger.buttons), w) then 1 else 0
  }

  lemma {:induction false} CountAppend(a: seq<Event>, b: seq<Event>, w: Wheel)
    ensures CountScrolls(a + b, w) == CountScrolls(a, w) + CountScrolls(b, w)
  {
    if b == [] {
      assert a + b == a;
    } else {
      CountAppend(a, b[..|b| - 1], w);
      assert (a + b)[..|a + b| - 1] == a + b[..|b| - 1];
    }
  }

  ghost predicate Silent(log: seq<Event>) {
    forall e :: e in log ==> !e.Scrolled?
  }

  lemma {:induction false} CountNone(log: seq<Event>, w: Wheel)
    requires Silent(log)
    ensures CountScrolls(log, w) == 0
  {
    if log != [] {
      CountNone(log[..|log| - 1], w);
    }
  }

  lemma {:induction false} CountRises(order: seq<Wheel>, before: set<Wheel>, after: set<Wheel>, w: Wheel)
    requires forall i, j :: 0 <= i < j < |order| ==> order[i] != order[j]
    ensures CountScrolls(Scrolls(order, before, after), w) == if w in order && Rises(before, after, w) then 1 else 0
  {
    if order != [] {
      var front, last := order[..|order| - 1], order[|order| - 1];
      CountRises(front, before, after, w);
      assert last !in front;
      assert forall x :: x in order <==> x in front || x == last by { assert order == front + [last]; }
      var step := if last in after && last !in before then [Scrolled(last)] else [];
      CountAppend(Scrolls(front, before, after), step, w);
      assert CountScrolls(step, w) == if step != [] && last == w then 1 else 0 by {
        if step != [] { assert step[..0] == []; }
      }
    }
  }

  lemma {:induction false} TransitionsDoNotScroll(order: seq<Button>, before: set<Button>, after: set<Button>, at: Point)
    ensures Silent(Transitions(order, before, after, at))
  {
    if order != [] { TransitionsDoNotScroll(order[..|order| - 1], before, after, at); }
  }

  lemma {:induction false} KeyUpsDoNotScroll(pid: Pid, order: seq<Code>)
    ensures Silent(KeyUps(pid, order))
  {
    if order != [] { KeyUpsDoNotScroll(pid, order[..|order| - 1]); }
  }

  lemma ReleaseDoesNotScroll(s: Ledger, order: seq<Code>, cursor: Point)
    ensures Silent(ReleaseStep(s, order, cursor).events)
  {
    if s.target.Some? { KeyUpsDoNotScroll(s.target.value, order); }
    TransitionsDoNotScroll(BUTTONS, Held(s.buttons), {}, cursor);
  }

  lemma CountAllRises(before: set<Wheel>, after: set<Wheel>, w: Wheel)
    ensures CountScrolls(Scrolls(WHEELS, before, after), w) == if Rises(before, after, w) then 1 else 0
  {
    CountRises(WHEELS, before, after, w);
    AllWheels(w);
  }

  lemma PointerScrolls(s: Ledger, width: int, height: int, x: int, y: int, mask: int, bounds: Option<Rect>, w: Wheel)
    ensures var o := PointerStep(s, width, height, x, y, mask, bounds);
            CountScrolls(o.events, w) == if Rises(Turned(s.buttons), Turned(o.next.buttons), w) then 1 else 0
  {
    if bounds.Some? && PointerValid(x, y, mask, width, height) {
      var at := Locate(bounds.value, x, y, width, height);
      var quiet := [Moved(DragButton(Held(s.buttons)), at)] + Transitions(BUTTONS, Held(s.buttons), Held(mask), at);
      TransitionsDoNotScroll(BUTTONS, Held(s.buttons), Held(mask), at);
      CountNone(quiet, w);
      CountAppend(quiet, Scrolls(WHEELS, Turned(s.buttons), Turned(mask)), w);
      CountAllRises(Turned(s.buttons), Turned(mask), w);
    }
  }

  lemma NothingRises(before: nat, after: nat, w: Wheel)
    requires after == before || after == 0
    ensures !Rises(Turned(before), Turned(after), w)
  {
  }

  lemma KeyScrolls(layout: Layout, s: Ledger, symbol: Symbol, down: bool, env: KeyEnv)
    ensures var o := KeyStep(layout, s, symbol, down, env);
            Silent(o.events) && (o.next.buttons == s.buttons || o.next.buttons == 0)
  {
    if env.permitted && env.focus.Some? {
      ReleaseDoesNotScroll(s, env.order, env.cursor);
      var moved := Retarget(s, env.focus.value, env.order, env.cursor);
      assert Silent(moved.events);
      ReleaseDoesNotScroll(moved.next, env.order, env.cursor);
    }
  }

  lemma StepScrolls(display: Display, s: Ledger, op: Op, w: Wheel)
    ensures var o := Apply(display, s, op);
            CountScrolls(o.events, w) == if Rises(Turned(s.buttons), Turned(o.next.buttons), w) then 1 else 0
  {
    match op
    case PointerOp(x, y, mask, bounds) =>
      PointerScrolls(s, display.width, display.height, x, y, mask, bounds, w);
    case KeyOp(symbol, down, env) =>
      var o := KeyStep(display.layout, s, symbol, down, env);
      KeyScrolls(display.layout, s, symbol, down, env);
      CountNone(o.events, w);
      NothingRises(s.buttons, o.next.buttons, w);
    case ReleaseOp(order, cursor) =>
      ReleaseDoesNotScroll(s, order, cursor);
      CountNone(ReleaseStep(s, order, cursor).events, w);
      NothingRises(s.buttons, 0, w);
  }

  lemma AllWheels(w: Wheel)
    ensures w in WHEELS
  {
    match w
    case Wheel8 => assert WHEELS[0] == w;
    case Wheel16 => assert WHEELS[1] == w;
    case Wheel32 => assert WHEELS[2] == w;
    case Wheel64 => assert WHEELS[3] == w;
  }

  /** Over a run the scroll events of a wheel bit are exactly the rising edges of that bit. */
  lemma {:induction false} ScrollsAreRisingEdges(display: Display, ops: seq<Op>, w: Wheel)
    ensures CountScrolls(Run(display, ops).log, w) == RisingEdges(display, ops, w)
  {
    if ops != [] {
      var front, op := ops[..|ops| - 1], ops[|ops| - 1];
      ScrollsAreRisingEdges(display, front, w);
      var t := Run(display, front);
      StepScrolls(display, t.ledger, op, w);
      CountAppend(t.log, Apply(display, t.ledger, op).events, w);
    }
  }

  // ----- Shared codes -----

  /** Every held symbol's key is down on the device. */
  ghost predicate Exact(s: Ledger, d: Device) {
    forall k :: k in s.keys ==> s.target.Some? && (s.target.value, s.keys[k]) in d.keys
  }

  /** No two symbols that can be typed share a virtual key. */
  ghost predicate Unshared(layout: Layout) {
    forall a, b :: Typable(layout, a) && Typable(layout, b) && layout.code(a) == layout.code(b) ==> a == b
  }

  ghost predicate TypableKeys(layout: Layout, s: Ledger) {
    forall k :: k in s.keys ==> Typable(layout, k)
  }

  lemma PointerExact(s: Ledger, d: Device, width: int, height: int, x: int, y: int, mask: int, bounds: Option<Rect>)
    requires Exact(s, d)
    ensures var o := PointerStep(s, width, height, x, y, mask, bounds); Exact(o.next, Replay(d, o.events))
  {
    var o := PointerStep(s, width, height, x, y, mask, bounds);
    if bounds.Some? && PointerValid(x, y, mask, width, height) {
      TransitionsKeyless(BUTTONS, Held(s.buttons), Held(mask), Locate(bounds.value, x, y, width, height));
      ScrollsKeyless(WHEELS, Turned(s.buttons), Turned(mask));
      ReplayKeyless(d, o.events);
    }
  }

  /** Without shared codes, lifting one symbol's key leaves the keys of the others down. */
  lemma CommitExact(layout: Layout, s: Ledger, d: Device, pid: Pid, symbol: Symbol, down: bool, e: Event)
    requires Unshared(layout) && Accounts(layout, s, d) && Exact(s, d) && TypableKeys(layout, s)
    requires s.target == Some(pid) && Typable(layout, symbol)
    requires if down then e.KeyDown? && e.pid == pid && e.code == layout.code(symbol)
             else e.KeyUp? && e.pid == pid && e.code == layout.code(symbol)
    ensures var next := s.(keys := Commit(layout, s.keys, symbol, down));
            Exact(next, Observe(d, e)) && TypableKeys(layout, next)
  {
    var keys := Commit(layout, s.keys, symbol, down);
    forall k | k in keys ensures (pid, keys[k]) in Observe(d, e).keys {
      if k != symbol {
        assert k in s.keys && keys[k] == s.keys[k] == layout.code(k);
        assert Typable(layout, k) && layout.code(k) != layout.code(symbol);
      }
    }
  }

  lemma KeyExact(layout: Layout, s: Ledger, d: Device, symbol: Symbol, down: bool, env: KeyEnv)
    requires Unshared(layout) && Accounts(layout, s, d) && Exact(s, d) && TypableKeys(layout, s)
    requires Lists(env.order, s.keys.Values)
    ensures var o := KeyStep(layout, s, symbol, down, env);
            Exact(o.next, Replay(d, o.events)) && TypableKeys(layout, o.next)
  {
    if env.permitted && env.focus.Some? {
      var pid := env.focus.value;
      var moved := Retarget(s, pid, env.order, env.cursor);
      RetargetAccounts(layout, s, d, pid, env.order, env.cursor);
      var d1 := Replay(d, moved.events);
      assert Exact(moved.next, d1) && TypableKeys(layout, moved.next);
      if Typable(layout, symbol) && (down ==> symbol in moved.next.keys || |moved.next.keys| < 256) && env.made {
        var e := KeyEvent(layout, pid, symbol, down, Commit(layout, moved.next.keys, symbol, down));
        KeyRecorded(layout, s, symbol, down, env);
        CommitExact(layout, moved.next, d1, pid, symbol, down, e);
        ReplaySnoc(d, moved.events, e);
      }
    }
  }

  lemma StepExact(display: Display, s: Ledger, d: Device, op: Op)
    requires Unshared(display.layout)
    requires Accounts(display.layout, s, d) && Fits(s, op) && Exact(s, d) && TypableKeys(display.layout, s)
    ensures var o := Apply(display, s, op); Exact(o.next, Replay(d, o.events)) && TypableKeys(display.layout, o.next)
  {
    match op
    case PointerOp(x, y, mask, bounds) => PointerExact(s, d, display.width, display.height, x, y, mask, bounds);
    case KeyOp(symbol, down, env) => KeyExact(display.layout, s, d, symbol, down, env);
    case ReleaseOp(order, cursor) =>
  }

  lemma {:induction false} TransitionsKeyless(order: seq<Button>, before: set<Button>, after: set<Button>, at: Point)
    ensures Keyless(Transitions(order, before, after, at))
  {
    if order != [] { TransitionsKeyless(order[..|order| - 1], before, after, at); }
  }

  lemma {:induction false} ScrollsKeyless(order: seq<Wheel>, before: set<Wheel>, after: set<Wheel>)
    ensures Keyless(Scrolls(order, before, after))
  {
    if order != [] { ScrollsKeyless(order[..|order| - 1], before, after); }
  }

  lemma {:induction false} RunExact(display: Display, ops: seq<Op>)
    requires Unshared(display.layout) && Lawful(display, ops)
    ensures var t := Run(display, ops); Exact(t.ledger, Replay(IDLE, t.log)) && TypableKeys(display.layout, t.ledger)
  {
    if ops != [] {
      var front, op := ops[..|ops| - 1], ops[|ops| - 1];
      RunExact(display, front);
      RunAccounts(display, front);
      var t := Run(display, front);
      StepExact(display, t.ledger, Replay(IDLE, t.log), op);
      ReplayAppend(IDLE, t.log, Apply(display, t.ledger, op).events);
    }
  }

  lemma RunSnoc(display: Display, ops: seq<Op>, op: Op)
    ensures var t := Run(display, ops);
            var o := Apply(display, t.ledger, op);
            Run(display, ops + [op]) == Trace(o.next, t.log + o.events)
    ensures Lawful(display, ops + [op]) <==> Lawful(display, ops) && Fits(Run(display, ops).ledger, op)
  {
    assert (ops + [op])[..|ops + [op]| - 1] == ops;
  }

  function Focused(symbol: Symbol, down: bool, order: seq<Code>): Op {
    KeyOp(symbol, down, KeyEnv(true, Some(1), true, order, Point(0.0, 0.0)))
  }

  lemma PlainStep(display: Display, keys: map<Symbol, Code>, symbol: Symbol, down: bool, order: seq<Code>)
    requires |keys| < 256 && Typable(display.layout, symbol)
    ensures var after := Commit(display.layout, keys, symbol, down);
            Apply(display, Ledger(0, keys, Some(1)), Focused(symbol, down, order))
            == Outcome(Ledger(0, after, Some(1)), [KeyEvent(display.layout, 1, symbol, down, after)], false)
  {
    var env := Focused(symbol, down, order).env;
    KeyRecorded(display.layout, Ledger(0, keys, Some(1)), symbol, down, env);
    var e := KeyEvent(display.layout, 1, symbol, down, Commit(display.layout, keys, symbol, down));
    assert [] + [e] == [e];
  }

  lemma ObserveKey(layout: Layout, log: seq<Event>, symbol: Symbol, down: bool, keys: map<Symbol, Code>)
    ensures var pressed, key := Replay(IDLE, log).keys, (1, layout.code(symbol));
            Replay(IDLE, log + [KeyEvent(layout, 1, symbol, down, keys)]).keys
            == if down then pressed + {key} else pressed - {key}
  {
    ReplaySnoc(IDLE, log, KeyEvent(layout, 1, symbol, down, keys));
  }

  /** A focused, permitted key message for a process that already is the target. */
  lemma PlainKey(display: Display, ops: seq<Op>, keys: map<Symbol, Code>, symbol: Symbol, down: bool, order: seq<Code>)
    returns (more: seq<Op>)
    requires Lawful(display, ops) && Run(display, ops).ledger == Ledger(0, keys, Some(1))
    requires Lists(order, keys.Values) && |keys| < 256 && Typable(display.layout, symbol)
    ensures Lawful(display, more)
    ensures Run(display, more).ledger == Ledger(0, Commit(display.layout, keys, symbol, down), Some(1))
    ensures var pressed, key := Replay(IDLE, Run(display, ops).log).keys, (1, display.layout.code(symbol));
            Replay(IDLE, Run(display, more).log).keys == if down then pressed + {key} else pressed - {key}
  {
    more := ops + [Focused(symbol, down, order)];
    RunSnoc(display, ops, Focused(symbol, down, order));
    PlainStep(display, keys, symbol, down, order);
    ObserveKey(display.layout, Run(display, ops).log, symbol, down, Commit(display.layout, keys, symbol, down));
  }

  lemma FocusFirst(display: Display) returns (ops: seq<Op>)
    ensures Lawful(display, ops) && Run(display, ops).ledger == Ledger(0, map[], Some(1))
  {
    var focus := KeyOp(0, false, KeyEnv(true, Some(1), true, [], Point(0.0, 0.0)));
    RunSnoc(display, [], focus);
    assert FRESH.keys.Values == {};
    ops := [] + [focus];
    assert Run(display, ops).ledger.keys == map[];
  }

  /** Press `a`, press `b`, lift `b`: when they share a code, `a` is held but its key is up. */
  lemma SharedCodeLosesAKey(display: Display, a: Symbol, b: Symbol) returns (ops: seq<Op>)
    requires Typable(display.layout, a) && Typable(display.layout, b) && a != b
    requires display.layout.code(a) == display.layout.code(b)
    ensures Lawful(display, ops) && var t := Run(display, ops); !Exact(t.ledger, Replay(IDLE, t.log))
  {
    var code := display.layout.code(a);
    var none: map<Symbol, Code> := map[];
    assert none.Values == {};
    ops := FocusFirst(display);
    ops := PlainKey(display, ops, none, a, true, []);
    var one: map<Symbol, Code> := map[a := code];
    assert one.Values == {code};
    ops := PlainKey(display, ops, one, b, true, [code]);
    var both: map<Symbol, Code> := one[b := code];
    assert both.Values == {code};
    ops := PlainKey(display, ops, both, b, false, [code]);
    assert a in both - {b};
  }

  /** The ledger is exact in every run if and only if no two typable symbols share a code. */
  lemma ExactIffUnshared(display: Display)
    ensures (forall ops :: Lawful(display, ops) ==> var t := Run(display, ops); Exact(t.ledger, Replay(IDLE, t.log)))
            <==> Unshared(display.layout)
  {
    if Unshared(display.layout) {
      forall ops | Lawful(display, ops)
        ensures var t := Run(display, ops); Exact(t.ledger, Replay(IDLE, t.log))
      {
        RunExact(display, ops);
      }
    } else {
      var a, b :| Typable(display.layout, a) && Typable(display.layout, b)
                  && display.layout.code(a) == display.layout.code(b) && a != b;
      var ops := SharedCodeLosesAKey(display, a, b);
    }
  }

  // ----- The pointer stays on the display -----

  lemma LessByFactor(a: real, b: real, w: real)
    requires w > 0.0 && a * w < b * w
    ensures a < b
  {
  }

  lemma ScaledInside(x: int, width: int, extent: real)
    requires 0 <= x < width && extent > 0.0
    ensures 0.0 <= Scale(x, width, extent) < extent
  {
    var w := width as real;
    assert Scale(x, width, extent) * w == x as real * extent;
    assert x as real * extent < w * extent;
    LessByFactor(Scale(x, width, extent), extent, w);
    LessByFactor(-1.0, Scale(x, width, extent), w);
    assert x as real * extent >= 0.0;
  }

  predicate Inside(p: Point, r: Rect) {
    r.minX <= p.x < r.minX + r.width && r.minY <= p.y < r.minY + r.height
  }

  ghost predicate AllInside(log: seq<Event>, r: Rect) {
    forall e :: e in log && (e.Moved? || e.Pressed? || e.Lifted?) ==> Inside(e.at, r)
  }

  lemma {:induction false} TransitionsInside(order: seq<Button>, before: set<Button>, after: set<Button>, at: Point, r: Rect)
    requires Inside(at, r)
    ensures AllInside(Transitions(order, before, after, at), r)
  {
    if order != [] { TransitionsInside(order[..|order| - 1], before, after, at, r); }
  }

  lemma {:induction false} ScrollsInside(order: seq<Wheel>, before: set<Wheel>, after: set<Wheel>, r: Rect)
    ensures AllInside(Scrolls(order, before, after), r)
  {
    if order != [] { ScrollsInside(order[..|order| - 1], before, after, r); }
  }

  /** Every mouse event a pointer message posts lies within the display's bounds. */
  lemma PointerStaysInside(s: Ledger, width: int, height: int, x: int, y: int, mask: int, bounds: Rect)
    requires bounds.width > 0.0 && bounds.height > 0.0
    ensures AllInside(PointerStep(s, width, height, x, y, mask, Some(bounds)).events, bounds)
  {
    if PointerValid(x, y, mask, width, height) {
      var at := Locate(bounds, x, y, width, height);
      ScaledInside(x, width, bounds.width);
      ScaledInside(y, height, bounds.height);
      TransitionsInside(BUTTONS, Held(s.buttons), Held(mask), at, bounds);
      ScrollsInside(WHEELS, Turned(s.buttons), Turned(mask), bounds);
    }
  }
}
