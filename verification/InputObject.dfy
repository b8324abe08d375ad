/** The input object itself, its loops proved against the step functions of the ledger. */
module InputObject {
  import opened Outcomes
  import opened InputLedger

  /** The helper's input object: its fields, and the log of the events it has posted. */
  class DisplayInput {
    const layout: Layout
    const width: int
    const height: int
    var buttons: nat
    var keys: map<Symbol, Code>
    var target: Option<Pid>
    var posted: seq<Event>

    constructor (layout: Layout, width: int, height: int)
      ensures this.layout == layout && this.width == width && this.height == height
      ensures View() == FRESH && posted == []
    {
      this.layout, this.width, this.height := layout, width, height;
      buttons, keys, target, posted := 0, map[], None, [];
    }

    function View(): Ledger
      reads this
    {
      Ledger(buttons, keys, target)
    }

    method Pointer(x: int, y: int, mask: int, bounds: Option<Rect>) returns (threw: bool)
      modifies this
      ensures var o := PointerStep(old(View()), width, height, x, y, mask, bounds);
              View() == o.next && posted == old(posted) + o.events && threw == o.threw
    {
      if bounds.None? || !PointerValid(x, y, mask, width, height) {
        return true;
      }
      var at := Locate(bounds.value, x, y, width, height);
      posted := posted + [Moved(DragButton(Held(buttons)), at)];
      PostButtons(mask, at);
      PostScrolls(mask);
      buttons := mask;
      return false;
    }

    method PostButtons(mask: nat, at: Point)
      modifies this`posted
      ensures posted == old(posted) + Transitions(BUTTONS, Held(buttons), Held(mask), at)
    {
      for i := 0 to |BUTTONS|
        invariant posted == old(posted) + Transitions(BUTTONS[..i], Held(buttons), Held(mask), at)
      {
        var b := BUTTONS[i];
        if (b in Held(mask)) != (b in Held(buttons)) {
          posted := posted + [if b in Held(mask) then Pressed(b, at) else Lifted(b, at)];
        }
        assert BUTTONS[..i + 1][..i] == BUTTONS[..i];
      }
      assert BUTTONS[..|BUTTONS|] == BUTTONS;
    }

    method PostScrolls(mask: nat)
      modifies this`posted
      ensures posted == old(posted) + Scrolls(WHEELS, Turned(buttons), Turned(mask))
    {
      for i := 0 to |WHEELS|
        invariant posted == old(posted) + Scrolls(WHEELS[..i], Turned(buttons), Turned(mask))
      {
        var w := WHEELS[i];
        if w in Turned(mask) && w !in Turned(buttons) {
          posted := posted + [Scrolled(w)];
        }
        assert WHEELS[..i + 1][..i] == WHEELS[..i];
      }
      assert WHEELS[..|WHEELS|] == WHEELS;
    }

    /** `order` is the order in which the set of held codes happened to be walked. */
    method Release(cursor: Point) returns (ghost order: seq<Code>)
      modifies this
      ensures Lists(order, old(keys).Values)
      ensures var o := ReleaseStep(old(View()), order, cursor);
              View() == o.next && posted == old(posted) + o.events
    {
      order := LiftTarget();
      keys, target := map[], None;
      LiftButtons(cursor);
      Assoc(old(posted), if old(target).Some? then KeyUps(old(target).value, order) else [],
            Transitions(BUTTONS, Held(buttons), {}, cursor));
      buttons := 0;
    }

    method LiftTarget() returns (ghost order: seq<Code>)
      modifies this`posted
      ensures Lists(order, keys.Values)
      ensures posted == old(posted) + if target.Some? then KeyUps(target.value, order) else []
    {
      if target.None? {
        return Walk(keys.Values);
      }
      order := LiftKeys(target.value, keys.Values);
    }

    method LiftButtons(cursor: Point)
      modifies this`posted
      ensures posted == old(posted) + Transitions(BUTTONS, Held(buttons), {}, cursor)
    {
      for i := 0 to |BUTTONS|
        invariant posted == old(posted) + Transitions(BUTTONS[..i], Held(buttons), {}, cursor)
      {
        var b := BUTTONS[i];
        if b in Held(buttons) {
          posted := posted + [Lifted(b, cursor)];
        }
        assert BUTTONS[..i + 1][..i] == BUTTONS[..i];
      }
      assert BUTTONS[..|BUTTONS|] == BUTTONS;
    }

    method LiftKeys(pid: Pid, held: set<Code>) returns (ghost order: seq<Code>)
      modifies this`posted
      ensures Lists(order, held) && posted == old(posted) + KeyUps(pid, order)
    {
      order := [];
      var codes := held;
      while codes != {}
        invariant multiset(order) + multiset(codes) == multiset(held)
        invariant posted == old(posted) + KeyUps(pid, order)
        decreases codes
      {
        var code :| code in codes;
        assert multiset(codes) == multiset(codes - {code}) + multiset{code};
        codes := codes - {code};
        posted := posted + [KeyUp(pid, code, {}, None)];
        KeyUpsSnoc(pid, order, code);
        order := order + [code];
      }
    }

    method Focus(pid: Pid, cursor: Point) returns (ghost order: seq<Code>)
      modifies this
      ensures Lists(order, old(keys).Values)
      ensures var o := Retarget(old(View()), pid, order, cursor);
              View() == o.next && posted == old(posted) + o.events
    {
      order := Walk(keys.Values);
      if target != Some(pid) {
        order := Release(cursor);
        target := Some(pid);
      }
    }

    /**
     One key message. The second test of the symbol, after the ledger has changed, can never return:
     the first one already has.
     */
    method Key(symbol: Symbol, down: bool, permitted: bool, focus: Option<Pid>, made: bool, cursor: Point)
      returns (threw: bool, ghost order: seq<Code>)
      modifies this
      ensures Lists(order, old(keys).Values)
      ensures var o := KeyStep(layout, old(View()), symbol, down, KeyEnv(permitted, focus, made, order, cursor));
              View() == o.next && posted == old(posted) + o.events && threw == o.threw
    {
      if !permitted || focus.None? {
        return true, Walk(keys.Values);
      }
      var pid := focus.value;
      order := Focus(pid, cursor);
      ghost var moved := Retarget(old(View()), pid, order, cursor);
      if !layout.named(symbol) && !Typable(layout, symbol) {
        return false, order;
      }
      if down && symbol !in keys && |keys| >= 256 {
        order := Release(cursor);
        Assoc(old(posted), moved.events, ReleaseStep(moved.next, order, cursor).events);
        return true, order;
      }
      if !made {
        return false, order;
      }
      Record(pid, symbol, down);
      Assoc(old(posted), moved.events, [KeyEvent(layout, pid, symbol, down, keys)]);
      return false, order;
    }

    method Record(pid: Pid, symbol: Symbol, down: bool)
      requires Typable(layout, symbol)
      modifies this`keys, this`posted
      ensures keys == Commit(layout, old(keys), symbol, down)
      ensures posted == old(posted) + [KeyEvent(layout, pid, symbol, down, keys)]
    {
      keys := Commit(layout, keys, symbol, down);
      var text := None;
      if !layout.named(symbol) {
        if !Typable(layout, symbol) {
          assert false;
        }
        text := Some(ScalarValue(symbol));
      }
      var code, flags := layout.code(symbol), Flags(keys);
      posted := posted + [if down then KeyDown(pid, code, flags, text) else KeyUp(pid, code, flags, text)];
    }
  }

  lemma KeyUpsSnoc(pid: Pid, order: seq<Code>, code: Code)
    ensures KeyUps(pid, order + [code]) == KeyUps(pid, order) + [KeyUp(pid, code, {}, None)]
  {
    assert (order + [code])[..|order|] == order;
  }

  lemma Assoc(a: seq<Event>, b: seq<Event>, c: seq<Event>)
    ensures a + b + c == a + (b + c)
  {
  }

  /** Some order in which a finite set of codes can be walked. */
  ghost function Walk(codes: set<Code>): (order: seq<Code>)
    ensures Lists(order, codes)
  {
    if codes == {} then []
    else
      var code :| code in codes;
      assert multiset(codes) == multiset(codes - {code}) + multiset{code};
      Walk(codes - {code}) + [code]
  }
}
