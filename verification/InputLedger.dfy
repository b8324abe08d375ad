/**
 The press/release ledger of the macOS display helper (native/display-helper/Input.swift).

 A step function gives, for each operation, the next ledger and the events it posts.
 `Device` is an independent reference: what the operating system believes is held after
 replaying a log of posted events. The theorems relate the two over every run.
 */
module InputLedger {
  import opened Outcomes

  type Symbol = n: int | 0 <= n < 0x1_0000_0000
  type Code = n: int | 0 <= n < 0x1_0000
  type Pid = int

  /** A key table: which symbols have a native key, and the virtual key of every symbol. */
  datatype Layout = Layout(named: Symbol -> bool, code: Symbol -> Code)

  datatype Point = Point(x: real, y: real)
  datatype Rect = Rect(minX: real, minY: real, width: real, height: real)

  datatype Button = Left | Center | Right
  datatype Wheel = Wheel8 | Wheel16 | Wheel32 | Wheel64
  datatype Modifier = Shift | Control | Alternate | Command

  datatype Event =
    | Moved(drag: Option<Button>, at: Point)
    | Pressed(button: Button, at: Point)
    | Lifted(button: Button, at: Point)
    | Scrolled(wheel: Wheel)
    | KeyDown(pid: Pid, code: Code, flags: set<Modifier>, text: Option<int>)
    | KeyUp(pid: Pid, code: Code, flags: set<Modifier>, text: Option<int>)

  datatype Ledger = Ledger(buttons: nat, keys: map<Symbol, Code>, target: Option<Pid>)

  /** The outcome of one operation: the next ledger, the events posted, and whether it threw. */
  datatype Outcome = Outcome(next: Ledger, events: seq<Event>, threw: bool)

  const FRESH := Ledger(0, map[], None)
  const BUTTONS: seq<Button> := [Left, Center, Right]
  const WHEELS: seq<Wheel> := [Wheel8, Wheel16, Wheel32, Wheel64]

  // ----- Masks -----

  /** The bit of a pointer mask that stands for a button. */
  predicate Holds(mask: nat, b: Button) {
    match b
    case Left => mask % 2 == 1
    case Center => mask / 2 % 2 == 1
    case Right => mask / 4 % 2 == 1
  }

  /** The bit of a pointer mask that stands for a wheel direction. */
  predicate Turns(mask: nat, w: Wheel) {
    match w
    case Wheel8 => mask / 8 % 2 == 1
    case Wheel16 => mask / 16 % 2 == 1
    case Wheel32 => mask / 32 % 2 == 1
    case Wheel64 => mask / 64 % 2 == 1
  }

  function Held(mask: nat): set<Button> {
    set b | b in {Left, Center, Right} && Holds(mask, b)
  }

  function Turned(mask: nat): set<Wheel> {
    set w | w in {Wheel8, Wheel16, Wheel32, Wheel64} && Turns(mask, w)
  }

  // ----- Pointer -----

  function DragButton(held: set<Button>): Option<Button> {
    if Left in held then Some(Left)
    else if Right in held then Some(Right)
    else if Center in held then Some(Center)
    else None
  }

  function Scale(x: int, width: int, extent: real): real
    requires width > 0
  {
    x as real * extent / width as real
  }

  function Locate(bounds: Rect, x: int, y: int, width: int, height: int): Point
    requires width > 0 && height > 0
  {
    Point(bounds.minX + Scale(x, width, bounds.width), bounds.minY + Scale(y, height, bounds.height))
  }

  function Transitions(order: seq<Button>, before: set<Button>, after: set<Button>, at: Point): seq<Event> {
    if order == [] then []
    else
      var b := order[|order| - 1];
      Transitions(order[..|order| - 1], before, after, at) +
      if b in after <==> b in before then []
      else if b in after then [Pressed(b, at)]
      else [Lifted(b, at)]
  }

  function Scrolls(order: seq<Wheel>, before: set<Wheel>, after: set<Wheel>): seq<Event> {
    if order == [] then []
    else
      var w := order[|order| - 1];
      Scrolls(order[..|order| - 1], before, after) +
      if w in after && w !in before then [Scrolled(w)] else []
  }

  predicate PointerValid(x: int, y: int, mask: int, width: int, height: int) {
    0 <= x < width && 0 <= y < height && 0 <= mask <= 127
  }

  /** One pointer message. `bounds` is absent when the permission or display check throws. */
  function PointerStep(s: Ledger, width: int, height: int, x: int, y: int, mask: int, bounds: Option<Rect>): Outcome {
    if bounds.None? || !PointerValid(x, y, mask, width, height) then Outcome(s, [], true)
    else
      var at := Locate(bounds.value, x, y, width, height);
      Outcome(s.(buttons := mask),
              [Moved(DragButton(Held(s.buttons)), at)]
              + Transitions(BUTTONS, Held(s.buttons), Held(mask), at)
              + Scrolls(WHEELS, Turned(s.buttons), Turned(mask)),
              false)
  }

  // ----- Release -----

  /** `order` lists each element of `codes` once: the order in which a set happens to be walked. */
  ghost predicate Lists(order: seq<Code>, codes: set<Code>) {
    multiset(order) == multiset(codes)
  }

  function KeyUps(pid: Pid, order: seq<Code>): seq<Event> {
    if order == [] then []
    else KeyUps(pid, order[..|order| - 1]) + [KeyUp(pid, order[|order| - 1], {}, None)]
  }

  function ReleaseStep(s: Ledger, order: seq<Code>, cursor: Point): Outcome {
    Outcome(FRESH,
            (if s.target.Some? then KeyUps(s.target.value, order) else [])
            + Transitions(BUTTONS, Held(s.buttons), {}, cursor),
            false)
  }

  // ----- Keys -----

  /** What the operating system answers while a key message is handled. */
  datatype KeyEnv = KeyEnv(
    permitted: bool,        // the permission and display checks pass
    focus: Option<Pid>,     // the process whose focused window lies on the display
    made: bool,             // the key event could be created
    order: seq<Code>,       // the order in which a release inside this call walks the held codes
    cursor: Point)          // where that release finds the cursor

  function ScalarValue(symbol: Symbol): int {
    if symbol / 0x100_0000 == 1 then symbol % 0x100_0000 else symbol
  }

  predicate IsScalar(value: int) {
    0 <= value <= 0x10_FFFF && !(0xD800 <= value <= 0xDFFF)
  }

  /** A symbol without a native key must be printable text outside the X11 function range. */
  predicate Typable(layout: Layout, symbol: Symbol) {
    layout.named(symbol)
    || (IsScalar(ScalarValue(symbol)) && ScalarValue(symbol) >= 32
        && (ScalarValue(symbol) < 0xFF00 || ScalarValue(symbol) > 0xFFFF))
  }

  function ModifierOf(symbol: Symbol): Option<Modifier> {
    match symbol
    case 0xFFE1 => Some(Shift) case 0xFFE2 => Some(Shift)
    case 0xFFE3 => Some(Control) case 0xFFE4 => Some(Control)
    case 0xFFE9 => Some(Alternate) case 0xFFEA => Some(Alternate)
    case 0xFFE7 => Some(Command) case 0xFFE8 => Some(Command)
    case 0xFFEB => Some(Command) case 0xFFEC => Some(Command)
    case _ => None
  }

  function Flags(keys: map<Symbol, Code>): set<Modifier> {
    set k | k in keys && ModifierOf(k).Some? :: ModifierOf(k).value
  }

  /** Focus moving to another process releases everything first. */
  function Retarget(s: Ledger, pid: Pid, order: seq<Code>, cursor: Point): Outcome {
    if s.target == Some(pid) then Outcome(s, [], false)
    else
      var r := ReleaseStep(s, order, cursor);
      r.(next := r.next.(target := Some(pid)))
  }

  /** The held symbols after a key event is recorded. */
  function Commit(layout: Layout, keys: map<Symbol, Code>, symbol: Symbol, down: bool): map<Symbol, Code> {
    if down then keys[symbol := layout.code(symbol)] else keys - {symbol}
  }

  /** The event posted once `keys` is what is held. */
  function KeyEvent(layout: Layout, pid: Pid, symbol: Symbol, down: bool, keys: map<Symbol, Code>): Event {
    var code := layout.code(symbol);
    var text := if layout.named(symbol) then None else Some(ScalarValue(symbol));
    if down then KeyDown(pid, code, Flags(keys), text) else KeyUp(pid, code, Flags(keys), text)
  }

  function KeyStep(layout: Layout, s: Ledger, symbol: Symbol, down: bool, env: KeyEnv): Outcome {
    if !env.permitted || env.focus.None? then Outcome(s, [], true)
    else
      var pid := env.focus.value;
      var moved := Retarget(s, pid, env.order, env.cursor);
      var held := moved.next.keys;
      if !Typable(layout, symbol) then moved
      else if down && symbol !in held && |held| >= 256 then
        var r := ReleaseStep(moved.next, env.order, env.cursor);
        Outcome(r.next, moved.events + r.events, true)
      else if !env.made then moved
      else
        var keys := Commit(layout, held, symbol, down);
        Outcome(moved.next.(keys := keys), moved.events + [KeyEvent(layout, pid, symbol, down, keys)], false)
  }

  /** The branch of a key message that is recorded and posted. */
  lemma KeyRecorded(layout: Layout, s: Ledger, symbol: Symbol, down: bool, env: KeyEnv)
    requires env.permitted && env.focus.Some? && env.made && Typable(layout, symbol)
    requires var held := Retarget(s, env.focus.value, env.order, env.cursor).next.keys;
             down ==> symbol in held || |held| < 256
    ensures var moved := Retarget(s, env.focus.value, env.order, env.cursor);
            var keys := Commit(layout, moved.next.keys, symbol, down);
            KeyStep(layout, s, symbol, down, env)
            == Outcome(moved.next.(keys := keys),
                       moved.events + [KeyEvent(layout, env.focus.value, symbol, down, keys)], false)
  {
  }

  // ----- The reference: what the operating system believes is held -----

  datatype Device = Device(keys: set<(Pid, Code)>, buttons: set<Button>, wellFormed: bool)

  const IDLE := Device({}, {}, true)

  /**
   One posted event. `wellFormed` fails for good once a button is pressed twice, lifted while up,
   dragged while up, or moved plainly while something is held.
   */
  function Observe(d: Device, e: Event): Device {
    match e
    case Moved(drag, _) =>
      d.(wellFormed := d.wellFormed && if drag.Some? then drag.value in d.buttons else d.buttons == {})
    case Pressed(b, _) => d.(buttons := d.buttons + {b}, wellFormed := d.wellFormed && b !in d.buttons)
    case Lifted(b, _) => d.(buttons := d.buttons - {b}, wellFormed := d.wellFormed && b in d.buttons)
    case Scrolled(_) => d
    case KeyDown(pid, code, _, _) => d.(keys := d.keys + {(pid, code)})
    case KeyUp(pid, code, _, _) => d.(keys := d.keys - {(pid, code)})
  }

  function Replay(d: Device, log: seq<Event>): Device {
    if log == [] then d else Observe(Replay(d, log[..|log| - 1]), log[|log| - 1])
  }

  /** The ledger accounts for everything the operating system believes is held. */
  ghost predicate Accounts(layout: Layout, s: Ledger, d: Device) {
    && s.buttons <= 127
    && |s.keys| <= 256
    && (forall k :: k in s.keys ==> s.keys[k] == layout.code(k))
    && (s.keys != map[] ==> s.target.Some?)
    && (forall h :: h in d.keys ==> s.target == Some(h.0) && h.1 in s.keys.Values)
    && d.buttons == Held(s.buttons)
    && d.wellFormed
  }

  lemma {:induction false} ReplayAppend(d: Device, a: seq<Event>, b: seq<Event>)
    ensures Replay(d, a + b) == Replay(Replay(d, a), b)
  {
    if b == [] {
      assert a + b == a;
    } else {
      var front := b[..|b| - 1];
      ReplayAppend(d, a, front);
      assert (a + b)[..|a + b| - 1] == a + front;
    }
  }

  lemma ReplaySnoc(d: Device, log: seq<Event>, e: Event)
    ensures Replay(d, log + [e]) == Observe(Replay(d, log), e)
  {
    assert (log + [e])[..|log + [e]| - 1] == log;
  }

  function Pairs(pid: Pid, order: seq<Code>): set<(Pid, Code)> {
    set c | c in order :: (pid, c)
  }

  lemma {:induction false} ReplayKeyUps(d: Device, pid: Pid, order: seq<Code>)
    ensures Replay(d, KeyUps(pid, order)) == d.(keys := d.keys - Pairs(pid, order))
  {
    if order == [] {
      assert d.keys - Pairs(pid, order) == d.keys;
    } else {
      var front, last := order[..|order| - 1], order[|order| - 1];
      ReplayKeyUps(d, pid, front);
      ReplaySnoc(d, KeyUps(pid, front), KeyUp(pid, last, {}, None));
      assert d.keys - Pairs(pid, front) - {(pid, last)} == d.keys - Pairs(pid, order) by {
        assert order == front + [last];
        assert Pairs(pid, order) == Pairs(pid, front) + {(pid, last)};
      }
    }
  }

  lemma ReplayOne(d: Device, e: Event)
    ensures Replay(d, [e]) == Observe(d, e)
  {
    assert [e][..0] == [];
  }

  /** Events that touch no key. */
  ghost predicate Keyless(log: seq<Event>) {
    forall e :: e in log ==> !e.KeyDown? && !e.KeyUp?
  }

  lemma {:induction false} ReplayKeyless(d: Device, log: seq<Event>)
    requires Keyless(log)
    ensures Replay(d, log).keys == d.keys
  {
    if log != [] {
      ReplayKeyless(d, log[..|log| - 1]);
    }
  }

  function Names(order: seq<Button>): set<Button> {
    set b | b in order
  }

  lemma NamesSnoc(order: seq<Button>)
    requires order != []
    ensures Names(order) == Names(order[..|order| - 1]) + {order[|order| - 1]}
  {
    assert order == order[..|order| - 1] + [order[|order| - 1]];
  }

  /** One button's transition moves that button from `before` to `after`. */
  lemma ReplayTransition(d: Device, before: set<Button>, after: set<Button>, done: set<Button>, b: Button, at: Point)
    requires d.buttons == (before - done) + (after * done) && b !in done
    ensures var events := if b in after <==> b in before then [] else if b in after then [Pressed(b, at)] else [Lifted(b, at)];
            Replay(d, events) == d.(buttons := (before - (done + {b})) + (after * (done + {b})))
  {
    if b in after && b !in before {
      ReplayOne(d, Pressed(b, at));
      assert d.buttons + {b} == (before - (done + {b})) + (after * (done + {b}));
    } else if b !in after && b in before {
      ReplayOne(d, Lifted(b, at));
      assert d.buttons - {b} == (before - (done + {b})) + (after * (done + {b}));
    } else {
      assert d.buttons == (before - (done + {b})) + (after * (done + {b}));
    }
  }

  /** Each prefix of the transition list has moved exactly the buttons it names. */
  lemma {:induction false} ReplayTransitions(d: Device, order: seq<Button>, before: set<Button>, after: set<Button>, at: Point)
    requires forall i, j :: 0 <= i < j < |order| ==> order[i] != order[j]
    requires d.buttons == before
    ensures Replay(d, Transitions(order, before, after, at))
            == d.(buttons := (before - Names(order)) + (after * Names(order)))
  {
    if order == [] {
      assert before == (before - Names(order)) + (after * Names(order));
    } else {
      var front, last := order[..|order| - 1], order[|order| - 1];
      ReplayTransitions(d, front, before, after, at);
      NamesSnoc(order);
      assert last !in Names(front);
      var done := Transitions(front, before, after, at);
      ReplayTransition(Replay(d, done), before, after, Names(front), last, at);
      ReplayAppend(d, done, if last in after <==> last in before then []
                            else if last in after then [Pressed(last, at)] else [Lifted(last, at)]);
    }
  }

  lemma {:induction false} ReplayScrolls(d: Device, order: seq<Wheel>, before: set<Wheel>, after: set<Wheel>)
    ensures Replay(d, Scrolls(order, before, after)) == d
  {
    if order != [] {
      var front, last := order[..|order| - 1], order[|order| - 1];
      ReplayScrolls(d, front, before, after);
      var done := Scrolls(front, before, after);
      if last in after && last !in before {
        ReplaySnoc(d, done, Scrolled(last));
      } else {
        assert Scrolls(order, before, after) == done;
      }
    }
  }

  lemma AllButtons(b: Button)
    ensures b in BUTTONS
  {
    match b
    case Left => assert BUTTONS[0] == b;
    case Center => assert BUTTONS[1] == b;
    case Right => assert BUTTONS[2] == b;
  }

  /** Walking all three buttons leaves exactly the new set of buttons held. */
  lemma ReplayAllTransitions(d: Device, before: set<Button>, after: set<Button>, at: Point)
    requires d.buttons == before
    ensures Replay(d, Transitions(BUTTONS, before, after, at)) == d.(buttons := after)
  {
    ReplayTransitions(d, BUTTONS, before, after, at);
    forall b: Button ensures b in Names(BUTTONS) { AllButtons(b); }
    assert (before - Names(BUTTONS)) + (after * Names(BUTTONS)) == after;
  }

  /** The opening move event is a drag exactly when some button is held. */
  lemma MoveIsWellFormed(d: Device, at: Point)
    ensures Observe(d, Moved(DragButton(d.buttons), at)) == d
  {
    if DragButton(d.buttons) == None {
      forall b ensures b !in d.buttons { match b case Left => case Center => case Right => }
      assert d.buttons == {};
    }
  }

  lemma PointerAccounts(layout: Layout, s: Ledger, d: Device,
                        width: int, height: int, x: int, y: int, mask: int, bounds: Option<Rect>)
    requires Accounts(layout, s, d)
    ensures var o := PointerStep(s, width, height, x, y, mask, bounds);
            Accounts(layout, o.next, Replay(d, o.events))
  {
    if bounds.Some? && PointerValid(x, y, mask, width, height) {
      var at := Locate(bounds.value, x, y, width, height);
      var move := [Moved(DragButton(d.buttons), at)];
      var shifts := Transitions(BUTTONS, d.buttons, Held(mask), at);
      ReplayOne(d, move[0]);
      MoveIsWellFormed(d, at);
      ReplayAppend(d, move, shifts);
      ReplayAllTransitions(d, d.buttons, Held(mask), at);
      ReplayAppend(d, move + shifts, Scrolls(WHEELS, Turned(s.buttons), Turned(mask)));
      ReplayScrolls(Replay(d, shifts), WHEELS, Turned(s.buttons), Turned(mask));
    }
  }

  /** Walking the held codes leaves the device no key, because the ledger accounts for all of them. */
  lemma ReleaseKeys(layout: Layout, s: Ledger, d: Device, order: seq<Code>)
    requires Accounts(layout, s, d)
    requires Lists(order, s.keys.Values)
    ensures Replay(d, if s.target.Some? then KeyUps(s.target.value, order) else []) == d.(keys := {})
  {
    if s.target.Some? {
      ReplayKeyUps(d, s.target.value, order);
      forall h | h in d.keys ensures h in Pairs(s.target.value, order) {
        assert h.1 in multiset(s.keys.Values);
        assert h.1 in order;
      }
      assert d.keys - Pairs(s.target.value, order) == {};
    } else {
      assert d.keys == {};
    }
  }

  /** After a release nothing is held, whatever the ledger held and in whatever order it walked it. */
  lemma ReleaseAccounts(layout: Layout, s: Ledger, d: Device, order: seq<Code>, cursor: Point)
    requires Accounts(layout, s, d)
    requires Lists(order, s.keys.Values)
    ensures var o := ReleaseStep(s, order, cursor);
            Replay(d, o.events) == IDLE && Accounts(layout, o.next, IDLE)
  {
    var ups := if s.target.Some? then KeyUps(s.target.value, order) else [];
    ReleaseKeys(layout, s, d, order);
    ReplayAppend(d, ups, Transitions(BUTTONS, d.buttons, {}, cursor));
    ReplayAllTransitions(d.(keys := {}), d.buttons, {}, cursor);
    assert Held(0) == {};
  }

  lemma RetargetAccounts(layout: Layout, s: Ledger, d: Device, pid: Pid, order: seq<Code>, cursor: Point)
    requires Accounts(layout, s, d)
    requires Lists(order, s.keys.Values)
    ensures var o := Retarget(s, pid, order, cursor);
            && Accounts(layout, o.next, Replay(d, o.events))
            && o.next.target == Some(pid)
            && (s.target != Some(pid) ==> o.next.keys == map[])
  {
    if s.target != Some(pid) {
      ReleaseAccounts(layout, s, d, order, cursor);
    }
  }

  lemma CommitSize(layout: Layout, keys: map<Symbol, Code>, symbol: Symbol, down: bool)
    requires |keys| <= 256
    requires down ==> symbol in keys || |keys| < 256
    ensures |Commit(layout, keys, symbol, down)| <= 256
  {
    var after := Commit(layout, keys, symbol, down);
    if down {
      assert after.Keys == keys.Keys + {symbol};
      if symbol in keys { assert after.Keys == keys.Keys; }
    } else {
      assert after.Keys == keys.Keys - {symbol};
      assert |after.Keys| <= |keys.Keys| by { Subset(after.Keys, keys.Keys); }
    }
  }

  lemma {:induction false} Subset<T>(a: set<T>, b: set<T>)
    requires a <= b
    ensures |a| <= |b|
  {
    assert b == a + (b - a);
    assert |b| == |a| + |b - a|;
  }

  /** A code still pressed after the event is still the code of a held symbol, although codes are shared. */
  lemma CommitCode(layout: Layout, keys: map<Symbol, Code>, symbol: Symbol, down: bool, code: Code)
    requires forall k :: k in keys ==> keys[k] == layout.code(k)
    requires if code == layout.code(symbol) then down else code in keys.Values
    ensures code in Commit(layout, keys, symbol, down).Values
  {
    var after := Commit(layout, keys, symbol, down);
    if code == layout.code(symbol) {
      assert after[symbol] == code;
    } else {
      var k :| k in keys && keys[k] == code;
      assert k in after && after[k] == code;
    }
  }

  /** A recorded key transition keeps every pressed code accounted for. */
  lemma CommitAccounts(layout: Layout, s: Ledger, d: Device, pid: Pid, symbol: Symbol, down: bool, e: Event)
    requires Accounts(layout, s, d) && s.target == Some(pid)
    requires down ==> symbol in s.keys || |s.keys| < 256
    requires if down then e.KeyDown? && e.pid == pid && e.code == layout.code(symbol)
             else e.KeyUp? && e.pid == pid && e.code == layout.code(symbol)
    ensures Accounts(layout, s.(keys := Commit(layout, s.keys, symbol, down)), Observe(d, e))
  {
    CommitSize(layout, s.keys, symbol, down);
    forall h | h in Observe(d, e).keys
      ensures s.target == Some(h.0) && h.1 in Commit(layout, s.keys, symbol, down).Values
    {
      CommitCode(layout, s.keys, symbol, down, h.1);
    }
  }

  lemma KeyAccounts(layout: Layout, s: Ledger, d: Device, symbol: Symbol, down: bool, env: KeyEnv)
    requires Accounts(layout, s, d)
    requires Lists(env.order, s.keys.Values)
    ensures var o := KeyStep(layout, s, symbol, down, env);
            Accounts(layout, o.next, Replay(d, o.events))
  {
    if env.permitted && env.focus.Some? {
      var pid := env.focus.value;
      var moved := Retarget(s, pid, env.order, env.cursor);
      RetargetAccounts(layout, s, d, pid, env.order, env.cursor);
      var d1 := Replay(d, moved.events);
      if !Typable(layout, symbol) {
      } else if down && symbol !in moved.next.keys && |moved.next.keys| >= 256 {
        assert moved.next == s;
        var r := ReleaseStep(moved.next, env.order, env.cursor);
        ReleaseAccounts(layout, moved.next, d1, env.order, env.cursor);
        ReplayAppend(d, moved.events, r.events);
      } else if env.made {
        var o := KeyStep(layout, s, symbol, down, env);
        var e := o.events[|o.events| - 1];
        assert o.events == moved.events + [e];
        CommitAccounts(layout, moved.next, d1, pid, symbol, down, e);
        ReplayAppend(d, moved.events, [e]);
        ReplayOne(d1, e);
      }
    }
  }
}
