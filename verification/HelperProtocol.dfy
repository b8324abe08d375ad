/** The requests a helper connection can carry (native/display-helper/Runtime.swift, `handle` and `integer`). */
module HelperProtocol {
  import opened Outcomes

  datatype Json = Bool(b: bool) | Number(n: real) | Text(s: string) | Other

  type Request = map<string, Json>

  datatype Command =
    | Malformed
    | Status
    | Start(size: Option<(nat, nat)>)
    | Pointer(at: Option<(nat, nat, nat)>)
    | Key(press: Option<(nat, bool)>)
    | Release
    | Stop
    | RescueCursor
    | Unknown

  function Get(r: Request, key: string): Option<Json> {
    if key in r then Some(r[key]) else None
  }

  /** A whole number from 0 to `maximum`; booleans and fractions are refused. */
  function Integer(value: Option<Json>, maximum: nat): Option<nat> {
    match value
    case Some(Number(n)) =>
      if n.Floor as real == n && 0.0 <= n <= maximum as real then Some(n.Floor) else None
    case _ => None
  }

  /** The size of a capture request, when every field of it is valid. */
  function CaptureSize(r: Request): Option<(nat, nat)> {
    var width, height := Integer(Get(r, "width"), 4096), Integer(Get(r, "height"), 4096);
    if Get(r, "uuid").Some? && Get(r, "uuid").value.Text? && Get(r, "name").Some? && Get(r, "name").value.Text?
       && width.Some? && width.value >= 320 && height.Some? && height.value >= 320
    then Some((width.value, height.value)) else None
  }

  function PointerAt(r: Request): Option<(nat, nat, nat)> {
    var x, y, mask := Integer(Get(r, "x"), 4095), Integer(Get(r, "y"), 4095), Integer(Get(r, "mask"), 127);
    if x.Some? && y.Some? && mask.Some? then Some((x.value, y.value, mask.value)) else None
  }

  function KeyPress(r: Request): Option<(nat, bool)> {
    var symbol := Integer(Get(r, "symbol"), 0xFFFF_FFFF);
    match Get(r, "down")
    case Some(Bool(down)) => if symbol.Some? then Some((symbol.value, down)) else None
    case _ => None
  }

  function Parse(r: Request): Command {
    match Get(r, "op")
    case Some(Text(op)) =>
      if op == "status" then Status
      else if op == "start" then Start(CaptureSize(r))
      else if op == "pointer" then Pointer(PointerAt(r))
      else if op == "key" then Key(KeyPress(r))
      else if op == "release" then Release
      else if op == "stop" then Stop
      else if op == "rescue-cursor" then RescueCursor
      else Unknown
    case _ => Malformed
  }

  /** What the handler may rely on in a parsed command. */
  predicate InRange(c: Command) {
    match c
    case Start(Some(size)) => 320 <= size.0 <= 4096 && 320 <= size.1 <= 4096
    case Pointer(Some(at)) => at.0 <= 4095 && at.1 <= 4095 && at.2 <= 127
    case Key(Some(press)) => press.0 <= 0xFFFF_FFFF
    case _ => true
  }

  /** An integer field is accepted exactly when it is a number that is a natural up to the maximum. */
  lemma IntegerExact(value: Option<Json>, maximum: nat, k: nat)
    ensures Integer(value, maximum) == Some(k) <==> value == Some(Number(k as real)) && k <= maximum
  {
    if value == Some(Number(k as real)) {
      assert (k as real).Floor == k;
    }
  }

  lemma ParseInRange(r: Request)
    ensures InRange(Parse(r))
  {
  }

  // ----- What a request says -----

  predicate Asks(r: Request, op: string) {
    "op" in r && r["op"] == Text(op)
  }

  predicate SaysNumber(r: Request, key: string, n: nat) {
    key in r && r[key] == Number(n as real)
  }

  predicate SaysText(r: Request, key: string) {
    key in r && r[key].Text?
  }

  /** The operation is the one the request names; another name is unknown, and no name is malformed. */
  lemma OperationExact(r: Request)
    ensures Parse(r).Status? <==> Asks(r, "status")
    ensures Parse(r).Start? <==> Asks(r, "start")
    ensures Parse(r).Pointer? <==> Asks(r, "pointer")
    ensures Parse(r).Key? <==> Asks(r, "key")
    ensures Parse(r).Release? <==> Asks(r, "release")
    ensures Parse(r).Stop? <==> Asks(r, "stop")
    ensures Parse(r).RescueCursor? <==> Asks(r, "rescue-cursor")
    ensures Parse(r).Malformed? <==> !SaysText(r, "op")
  {
    assert |"status"| == 6 && |"start"| == 5 && |"pointer"| == 7 && |"key"| == 3 && |"release"| == 7 && |"stop"| == 4 && |"rescue-cursor"| == 13;
    assert "pointer"[0] != "release"[0];
  }

  /** A capture request is valid exactly when it names a display and a size from 320 to 4096 both ways. */
  lemma StartExact(r: Request, width: nat, height: nat)
    ensures Parse(r) == Start(Some((width, height)))
        <==> && Asks(r, "start") && SaysText(r, "uuid") && SaysText(r, "name")
             && SaysNumber(r, "width", width) && SaysNumber(r, "height", height)
             && 320 <= width <= 4096 && 320 <= height <= 4096
  {
    OperationExact(r);
    IntegerExact(Get(r, "width"), 4096, width);
    IntegerExact(Get(r, "height"), 4096, height);
  }

  lemma PointerExact(r: Request, x: nat, y: nat, mask: nat)
    ensures Parse(r) == Pointer(Some((x, y, mask)))
        <==> && Asks(r, "pointer") && SaysNumber(r, "x", x) && SaysNumber(r, "y", y) && SaysNumber(r, "mask", mask)
             && x <= 4095 && y <= 4095 && mask <= 127
  {
    OperationExact(r);
    IntegerExact(Get(r, "x"), 4095, x);
    IntegerExact(Get(r, "y"), 4095, y);
    IntegerExact(Get(r, "mask"), 127, mask);
  }

  lemma KeyExact(r: Request, symbol: nat, down: bool)
    ensures Parse(r) == Key(Some((symbol, down)))
        <==> && Asks(r, "key") && SaysNumber(r, "symbol", symbol) && symbol <= 0xFFFF_FFFF
             && "down" in r && r["down"] == Bool(down)
  {
    OperationExact(r);
    IntegerExact(Get(r, "symbol"), 0xFFFF_FFFF, symbol);
  }
}
