/**
 What single input messages post (native/display-helper/Input.swift): where, in which order, with which
 modifiers and text, and exactly when they are refused.
 */
module InputLaws {
  import opened Outcomes
  import opened InputLedger

  // ----- Masks -----

  /** The mask a peer sends for these buttons and wheel directions. */
  function MaskOf(buttons: set<Button>, wheels: set<Wheel>): nat {
    Bit(Left in buttons) + 2 * Bit(Center in buttons) + 4 * Bit(Right in buttons) + 8 * Bit(Wheel8 in wheels)
    + 16 * Bit(Wheel16 in wheels) + 32 * Bit(Wheel32 in wheels) + 64 * Bit(Wheel64 in wheels)
  }

  function Bit(on: bool): nat {
    if on then 1 else 0
  }

  lemma Halves(n: nat)
    ensures n / 4 == n / 2 / 2 && n / 8 == n / 4 / 2 && n / 16 == n / 8 / 2 && n / 32 == n / 16 / 2 && n / 64 == n / 32 / 2
  {
  }

  lemma Peel(n: nat, low: nat, rest: nat)
    requires n == low + 2 * rest && low <= 1
    ensures n % 2 == low && n / 2 == rest
  {
  }

  lemma BitsOf(a: nat, b: nat, c: nat, d: nat, e: nat, f: nat, g: nat, n: nat)
    requires a <= 1 && b <= 1 && c <= 1 && d <= 1 && e <= 1 && f <= 1 && g <= 1
    requires n == a + 2 * b + 4 * c + 8 * d + 16 * e + 32 * f + 64 * g
    ensures n % 2 == a && n / 2 % 2 == b && n / 4 % 2 == c && n / 8 % 2 == d && n / 16 % 2 == e && n / 32 % 2 == f && n / 64 % 2 == g
  {
    Halves(n);
    Peel(n, a, b + 2 * c + 4 * d + 8 * e + 16 * f + 32 * g);
    Peel(n / 2, b, c + 2 * d + 4 * e + 8 * f + 16 * g);
    Peel(n / 4, c, d + 2 * e + 4 * f + 8 * g);
    Peel(n / 8, d, e + 2 * f + 4 * g);
    Peel(n / 16, e, f + 2 * g);
    Peel(n / 32, f, g);
  }

  /** Bits 1, 2 and 4 are the left, centre and right button; 8 to 64 the wheel directions. */
  lemma MaskRead(buttons: set<Button>, wheels: set<Wheel>)
    ensures Held(MaskOf(buttons, wheels)) == buttons && Turned(MaskOf(buttons, wheels)) == wheels
  {
    var n := MaskOf(buttons, wheels);
    BitsOf(Bit(Left in buttons), Bit(Center in buttons), Bit(Right in buttons),
           Bit(Wheel8 in wheels), Bit(Wheel16 in wheels), Bit(Wheel32 in wheels), Bit(Wheel64 in wheels), n);
    hide MaskOf, Held, Turned;
    forall b: Button ensures b in Held(n) <==> b in buttons {
      HeldExact(n, b);
      match b case Left => case Center => case Right =>
    }
    forall w: Wheel ensures w in Turned(n) <==> w in wheels {
      TurnedExact(n, w);
      match w case Wheel8 => case Wheel16 => case Wheel32 => case Wheel64 =>
    }
  }

  /** Every valid mask is the mask of what is read from it. */
  lemma MaskWritten(mask: nat)
    requires mask <= 127
    ensures MaskOf(Held(mask), Turned(mask)) == mask
  {
    hide Held, Turned;
    SumOfBits(mask);
    HeldBits(mask);
    TurnedBits(mask);
  }

  lemma Halve(q: nat)
    ensures q == q % 2 + 2 * (q / 2)
  {
  }

  lemma SumOfBits(n: nat)
    requires n <= 127
    ensures n == n % 2 + 2 * (n / 2 % 2) + 4 * (n / 4 % 2) + 8 * (n / 8 % 2) + 16 * (n / 16 % 2) + 32 * (n / 32 % 2) + 64 * (n / 64 % 2)
  {
    var n1, n2, n3, n4, n5, n6 := n / 2, n / 4, n / 8, n / 16, n / 32, n / 64;
    Halves(n);
    Halve(n); Halve(n1); Halve(n2); Halve(n3); Halve(n4); Halve(n5);
    assert n6 <= 1;
  }

  lemma Bits(q: nat)
    ensures q % 2 == Bit(q % 2 == 1)
  {
  }

  lemma HeldBits(mask: nat)
    ensures Bit(Left in Held(mask)) == mask % 2 && Bit(Center in Held(mask)) == mask / 2 % 2 && Bit(Right in Held(mask)) == mask / 4 % 2
  {
    HeldExact(mask, Left); HeldExact(mask, Center); HeldExact(mask, Right);
    Bits(mask); Bits(mask / 2); Bits(mask / 4);
  }

  lemma TurnedBits(mask: nat)
    ensures Bit(Wheel8 in Turned(mask)) == mask / 8 % 2 && Bit(Wheel16 in Turned(mask)) == mask / 16 % 2
    ensures Bit(Wheel32 in Turned(mask)) == mask / 32 % 2 && Bit(Wheel64 in Turned(mask)) == mask / 64 % 2
  {
    TurnedExact(mask, Wheel8); TurnedExact(mask, Wheel16); TurnedExact(mask, Wheel32); TurnedExact(mask, Wheel64);
    Bits(mask / 8); Bits(mask / 16); Bits(mask / 32); Bits(mask / 64);
  }

  lemma HeldExact(mask: nat, b: Button)
    ensures b in Held(mask) <==> Holds(mask, b)
  {
    match b case Left => case Center => case Right =>
  }

  lemma TurnedExact(mask: nat, w: Wheel)
    ensures w in Turned(mask) <==> Turns(mask, w)
  {
    match w case Wheel8 => case Wheel16 => case Wheel32 => case Wheel64 =>
  }

  // ----- Pointer messages -----

  /** The event lies as far into the bounds as the pixel lies into the capture, in both directions. */
  predicate Proportional(at: Point, x: int, y: int, width: int, height: int, bounds: Rect) {
    && (at.x - bounds.minX) * width as real == x as real * bounds.width
    && (at.y - bounds.minY) * height as real == y as real * bounds.height
  }

  ghost predicate AllAt(log: seq<Event>, at: Point) {
    forall e :: e in log && (e.Moved? || e.Pressed? || e.Lifted?) ==> e.at == at
  }

  lemma {:induction false} TransitionsAt(order: seq<Button>, before: set<Button>, after: set<Button>, at: Point)
    ensures AllAt(Transitions(order, before, after, at), at)
  {
    if order != [] { TransitionsAt(order[..|order| - 1], before, after, at); }
  }

  lemma {:induction false} ScrollsAt(order: seq<Wheel>, before: set<Wheel>, after: set<Wheel>, at: Point)
    ensures AllAt(Scrolls(order, before, after), at)
  {
    if order != [] { ScrollsAt(order[..|order| - 1], before, after, at); }
  }

  lemma Scaled(x: int, width: int, extent: real)
    requires width > 0
    ensures Scale(x, width, extent) * width as real == x as real * extent
  {
  }

  lemma LocatedAt(bounds: Rect, x: int, y: int, width: int, height: int)
    requires width > 0 && height > 0
    ensures Proportional(Locate(bounds, x, y, width, height), x, y, width, height, bounds)
  {
    hide Scale;
    Scaled(x, width, bounds.width);
    Scaled(y, height, bounds.height);
  }

  /** Every mouse event of a valid message is posted at the pixel the message names. */
  lemma PointerPlaced(s: Ledger, width: int, height: int, x: int, y: int, mask: int, bounds: Rect, e: Event)
    requires e in PointerStep(s, width, height, x, y, mask, Some(bounds)).events
    requires e.Moved? || e.Pressed? || e.Lifted?
    ensures Proportional(e.at, x, y, width, height, bounds)
  {
    hide Proportional, Locate;
    var at := Locate(bounds, x, y, width, height);
    LocatedAt(bounds, x, y, width, height);
    TransitionsAt(BUTTONS, Held(s.buttons), Held(mask), at);
    ScrollsAt(WHEELS, Turned(s.buttons), Turned(mask), at);
  }

  /** The dragged button: left before right before centre. */
  predicate Drags(drag: Option<Button>, held: set<Button>) {
    && (drag == Some(Left) <==> Left in held)
    && (drag == Some(Right) <==> Right in held && Left !in held)
    && (drag == Some(Center) <==> Center in held && Left !in held && Right !in held)
    && (drag == None <==> held == {})
  }

  lemma DragsHeld(held: set<Button>)
    ensures Drags(DragButton(held), held)
  {
    if Left !in held && Right !in held && Center !in held {
      forall b: Button ensures b !in held { match b case Left => case Center => case Right => }
    }
  }

  ghost predicate PressesIn(log: seq<Event>, b: Button) {
    exists e :: e in log && e.Pressed? && e.button == b
  }

  ghost predicate LiftsIn(log: seq<Event>, b: Button) {
    exists e :: e in log && e.Lifted? && e.button == b
  }

  ghost predicate MovesIn(log: seq<Event>) {
    exists e :: e in log && e.Moved?
  }

  lemma {:induction false} TransitionsExact(order: seq<Button>, before: set<Button>, after: set<Button>, at: Point, b: Button)
    ensures var log := Transitions(order, before, after, at);
            && (PressesIn(log, b) <==> b in order && b in after && b !in before)
            && (LiftsIn(log, b) <==> b in order && b in before && b !in after)
            && !MovesIn(log) && forall w :: Scrolled(w) !in log
  {
    if order != [] {
      var front, last := order[..|order| - 1], order[|order| - 1];
      TransitionsExact(front, before, after, at, b);
      assert order == front + [last];
      var log, more := Transitions(front, before, after, at), Transitions(order, before, after, at);
      assert forall e :: e in log ==> e in more;
      if last in after && last !in before { assert Pressed(last, at) in more; }
      if last !in after && last in before { assert Lifted(last, at) in more; }
    }
  }

  lemma {:induction false} ScrollsExact(order: seq<Wheel>, before: set<Wheel>, after: set<Wheel>, w: Wheel)
    ensures var log := Scrolls(order, before, after);
            && (Scrolled(w) in log <==> w in order && w in after && w !in before)
            && (forall e :: e in log ==> e.Scrolled?)
  {
    if order != [] {
      var front, last := order[..|order| - 1], order[|order| - 1];
      ScrollsExact(front, before, after, w);
      assert order == front + [last];
    }
  }

  lemma EveryWheel(w: Wheel)
    ensures w in WHEELS
  {
    match w
    case Wheel8 => assert WHEELS[0] == w;
    case Wheel16 => assert WHEELS[1] == w;
    case Wheel32 => assert WHEELS[2] == w;
    case Wheel64 => assert WHEELS[3] == w;
  }

  /**
   A pointer message is refused exactly when a check fails or a number is out of range, and then does
   nothing. Otherwise it posts one move first, dragging what is held, then a press for each button newly in
   the mask, a lift for each no longer in it, and a scroll for each wheel bit newly in it.
   */
  lemma PointerExact(s: Ledger, width: int, height: int, x: int, y: int, mask: int, bounds: Option<Rect>)
    ensures var o := PointerStep(s, width, height, x, y, mask, bounds);
            && (o.threw <==> bounds.None? || !(0 <= x < width && 0 <= y < height && 0 <= mask <= 127))
            && (o.threw ==> o.next == s && o.events == [])
            && (!o.threw ==>
                  && o.next == Ledger(mask, s.keys, s.target)
                  && o.events != [] && o.events[0].Moved? && Drags(o.events[0].drag, Held(s.buttons)) && !MovesIn(o.events[1..])
                  && (forall b :: PressesIn(o.events, b) <==> b in Held(mask) && b !in Held(s.buttons))
                  && (forall b :: LiftsIn(o.events, b) <==> b in Held(s.buttons) && b !in Held(mask))
                  && (forall w :: Scrolled(w) in o.events <==> w in Turned(mask) && w !in Turned(s.buttons)))
  {
    var o := PointerStep(s, width, height, x, y, mask, bounds);
    if !o.threw {
      var at := Locate(bounds.value, x, y, width, height);
      var first := Moved(DragButton(Held(s.buttons)), at);
      var buttons, wheels := Transitions(BUTTONS, Held(s.buttons), Held(mask), at), Scrolls(WHEELS, Turned(s.buttons), Turned(mask));
      DragsHeld(Held(s.buttons));
      assert o.events[0] == first && o.events[1..] == buttons + wheels;
      assert forall e :: e in o.events <==> e == first || e in buttons || e in wheels;
      forall b: Button
        ensures PressesIn(o.events, b) <==> b in Held(mask) && b !in Held(s.buttons)
        ensures LiftsIn(o.events, b) <==> b in Held(s.buttons) && b !in Held(mask)
      {
        TransitionsExact(BUTTONS, Held(s.buttons), Held(mask), at, b);
        AllButtons(b);
        ScrollsExact(WHEELS, Turned(s.buttons), Turned(mask), Wheel8);
      }
      TransitionsExact(BUTTONS, Held(s.buttons), Held(mask), at, Left);
      forall w: Wheel ensures Scrolled(w) in o.events <==> w in Turned(mask) && w !in Turned(s.buttons) {
        ScrollsExact(WHEELS, Turned(s.buttons), Turned(mask), w);
        EveryWheel(w);
      }
      ScrollsExact(WHEELS, Turned(s.buttons), Turned(mask), Wheel8);
    }
  }

  // ----- Releases -----

  lemma {:induction false} KeyUpsExact(pid: Pid, order: seq<Code>, e: Event)
    ensures e in KeyUps(pid, order) <==> e.KeyUp? && e.pid == pid && e.code in order && e.flags == {} && e.text == None
  {
    if order != [] {
      KeyUpsExact(pid, order[..|order| - 1], e);
      assert order == order[..|order| - 1] + [order[|order| - 1]];
    }
  }

  /**
   A release posts exactly a plain key-up to the target for each held code, and a lift at the cursor for
   each held button, and forgets everything.
   */
  lemma ReleaseExact(s: Ledger, order: seq<Code>, cursor: Point, e: Event)
    requires Lists(order, s.keys.Values)
    ensures ReleaseStep(s, order, cursor).next == FRESH && !ReleaseStep(s, order, cursor).threw
    ensures e in ReleaseStep(s, order, cursor).events
        <==> || (e.KeyUp? && s.target == Some(e.pid) && e.code in s.keys.Values && e.flags == {} && e.text == None)
             || (e.Lifted? && e.button in Held(s.buttons) && e.at == cursor)
  {
    var ups := if s.target.Some? then KeyUps(s.target.value, order) else [];
    var lifts := Transitions(BUTTONS, Held(s.buttons), {}, cursor);
    if s.target.Some? { KeyUpsExact(s.target.value, order, e); }
    forall code ensures code in order <==> code in s.keys.Values {
      assert code in multiset(order) <==> code in multiset(s.keys.Values);
    }
    LiftsExact(BUTTONS, Held(s.buttons), cursor, e);
    if e.Lifted? { AllButtons(e.button); }
  }

  lemma {:induction false} LiftsExact(order: seq<Button>, held: set<Button>, cursor: Point, e: Event)
    ensures e in Transitions(order, held, {}, cursor) <==> e.Lifted? && e.button in order && e.button in held && e.at == cursor
  {
    if order != [] {
      LiftsExact(order[..|order| - 1], held, cursor, e);
      assert order == order[..|order| - 1] + [order[|order| - 1]];
    }
  }

  // ----- Key messages -----

  /** Printable text: no control characters, no surrogates, nothing in the range of the X11 function keys. */
  predicate Printable(v: int) {
    0x20 <= v < 0xD800 || 0xE000 <= v < 0xFF00 || 0x1_0000 <= v <= 0x10_FFFF
  }

  /** A symbol without a key of its own is printable as it is, or with the tag of a Unicode symbol removed. */
  lemma TypableExact(layout: Layout, symbol: Symbol)
    ensures Typable(layout, symbol)
        <==> || layout.named(symbol)
             || Printable(symbol)
             || (0x100_0000 <= symbol < 0x200_0000 && Printable(symbol - 0x100_0000))
  {
    if 0x100_0000 <= symbol < 0x200_0000 { assert symbol % 0x100_0000 == symbol - 0x100_0000; }
  }

  /** The modifiers of an event are those of the symbols held once it is recorded. */
  predicate Modified(flags: set<Modifier>, keys: map<Symbol, Code>) {
    && (Shift in flags <==> 0xFFE1 in keys || 0xFFE2 in keys)
    && (Control in flags <==> 0xFFE3 in keys || 0xFFE4 in keys)
    && (Alternate in flags <==> 0xFFE9 in keys || 0xFFEA in keys)
    && (Command in flags <==> 0xFFE7 in keys || 0xFFE8 in keys || 0xFFEB in keys || 0xFFEC in keys)
  }

  lemma FlagExact(keys: map<Symbol, Code>, m: Modifier)
    ensures m in Flags(keys) <==> exists k :: k in keys && ModifierOf(k) == Some(m)
  {
  }

  lemma FlagsModified(keys: map<Symbol, Code>)
    ensures Modified(Flags(keys), keys)
  {
    hide Flags;
    FlagExact(keys, Shift);
    FlagExact(keys, Control);
    FlagExact(keys, Alternate);
    FlagExact(keys, Command);
    forall k: Symbol
      ensures ModifierOf(k) == Some(Shift) <==> k == 0xFFE1 || k == 0xFFE2
      ensures ModifierOf(k) == Some(Control) <==> k == 0xFFE3 || k == 0xFFE4
      ensures ModifierOf(k) == Some(Alternate) <==> k == 0xFFE9 || k == 0xFFEA
      ensures ModifierOf(k) == Some(Command) <==> k == 0xFFE7 || k == 0xFFE8 || k == 0xFFEB || k == 0xFFEC
    {}
    hide ModifierOf;
  }

  /** The text of a symbol without a key of its own: its scalar, without the tag. */
  predicate Spells(text: Option<int>, layout: Layout, symbol: Symbol) {
    && (layout.named(symbol) ==> text == None)
    && (!layout.named(symbol) && symbol < 0x100_0000 ==> text == Some(symbol))
    && (!layout.named(symbol) && 0x100_0000 <= symbol < 0x200_0000 ==> text == Some(symbol - 0x100_0000))
  }

  /** One key event: to the focused process, for the symbol's key, with the modifiers and text that go with it. */
  predicate Strikes(e: Event, layout: Layout, pid: Pid, symbol: Symbol, down: bool, keys: map<Symbol, Code>) {
    && (if down then e.KeyDown? else e.KeyUp?)
    && e.pid == pid && e.code == layout.code(symbol)
    && Modified(e.flags, keys) && Spells(e.text, layout, symbol)
  }

  /** What is held after a key went down or up. */
  ghost predicate Recorded(before: map<Symbol, Code>, after: map<Symbol, Code>, layout: Layout, symbol: Symbol, down: bool) {
    && (forall k :: k != symbol ==> (k in after <==> k in before) && (k in before ==> after[k] == before[k]))
    && (if down then symbol in after && after[symbol] == layout.code(symbol) else symbol !in after)
  }

  lemma KeyEventStrikes(layout: Layout, pid: Pid, before: map<Symbol, Code>, symbol: Symbol, down: bool)
    ensures var after := Commit(layout, before, symbol, down);
            Strikes(KeyEvent(layout, pid, symbol, down, after), layout, pid, symbol, down, after) && Recorded(before, after, layout, symbol, down)
  {
    hide Flags, Modified;
    FlagsModified(Commit(layout, before, symbol, down));
    if 0x100_0000 <= symbol < 0x200_0000 { assert symbol % 0x100_0000 == symbol - 0x100_0000; }
  }

  /** A key message throws exactly when a check fails, nothing is focused, or a new key would be the 257th held. */
  lemma KeyThrows(layout: Layout, s: Ledger, symbol: Symbol, down: bool, env: KeyEnv)
    ensures KeyStep(layout, s, symbol, down, env).threw
        <==> || !env.permitted || env.focus.None?
             || (Typable(layout, symbol) && down && s.target == env.focus && symbol !in s.keys && |s.keys| >= 256)
  {
    hide Typable;
  }

  /** While focus stays, a key message that is neither refused nor unprintable posts exactly its event and records it. */
  lemma KeyStrikes(layout: Layout, s: Ledger, symbol: Symbol, down: bool, env: KeyEnv)
    requires env.permitted && env.focus.Some? && s.target == env.focus && env.made && Typable(layout, symbol)
    requires down && symbol !in s.keys ==> |s.keys| < 256
    ensures var o := KeyStep(layout, s, symbol, down, env);
            && |o.events| == 1 && Strikes(o.events[0], layout, env.focus.value, symbol, down, o.next.keys)
            && Recorded(s.keys, o.next.keys, layout, symbol, down)
            && o.next.target == s.target && o.next.buttons == s.buttons
  {
    hide Typable, Strikes, Recorded;
    KeyRecorded(layout, s, symbol, down, env);
    KeyEventStrikes(layout, env.focus.value, s.keys, symbol, down);
    var o := KeyStep(layout, s, symbol, down, env);
    var e := KeyEvent(layout, env.focus.value, symbol, down, Commit(layout, s.keys, symbol, down));
    assert o.events == [e];
  }

  /** When focus moved, everything at the old target is released first, and the key is then the only one held. */
  lemma KeyMovesFocus(layout: Layout, s: Ledger, symbol: Symbol, down: bool, env: KeyEnv)
    requires env.permitted && env.focus.Some? && s.target != env.focus && env.made && Typable(layout, symbol)
    ensures var o, r := KeyStep(layout, s, symbol, down, env), ReleaseStep(s, env.order, env.cursor).events;
            && |o.events| == |r| + 1 && o.events[..|r|] == r
            && Strikes(o.events[|r|], layout, env.focus.value, symbol, down, o.next.keys)
            && Recorded(map[], o.next.keys, layout, symbol, down)
            && o.next.target == env.focus && o.next.buttons == 0
  {
    hide Typable, Strikes, Recorded, ReleaseStep;
    ReleasedFresh(s, env.order, env.cursor);
    KeyRecorded(layout, s, symbol, down, env);
    KeyEventStrikes(layout, env.focus.value, map[], symbol, down);
  }

  lemma ReleasedFresh(s: Ledger, order: seq<Code>, cursor: Point)
    ensures ReleaseStep(s, order, cursor).next == Ledger(0, map[], None)
  {
  }

  /** A symbol that cannot be typed, or an event that cannot be made, changes nothing but the focus. */
  lemma KeyIgnored(layout: Layout, s: Ledger, symbol: Symbol, down: bool, env: KeyEnv)
    requires env.permitted && env.focus.Some? && !KeyStep(layout, s, symbol, down, env).threw
    requires !Typable(layout, symbol) || !env.made
    ensures var o, r := KeyStep(layout, s, symbol, down, env), ReleaseStep(s, env.order, env.cursor).events;
            && o.next.target == env.focus
            && (if s.target == env.focus then o.next == s && o.events == [] else o.next.keys == map[] && o.events == r)
  {
    hide Typable;
  }
}
