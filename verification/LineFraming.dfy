/**
 Bounded newline framing (native/display-helper/Connection.swift): a reference that splits a byte
 stream into lines, the receive buffer proved to follow it under any chunking, and the send buffer
 proved to lose, repeat and reorder nothing under any pattern of partial writes.
 */
module LineFraming {

  type Byte = n: int | 0 <= n < 256

  type Line = seq<Byte>

  const NEWLINE: Byte := 10
  const MAX_READ := 16_384
  const MAX_INCOMING := 65_536
  const MAX_FRAME := 6_291_456
  const MAX_OUTGOING := 8_388_608
  const MAX_WRITE := 65_536

  // ----- The reference: lines of a stream -----

  /** The complete lines of a stream, and what follows the last newline. */
  datatype Parts = Parts(lines: seq<Line>, residue: seq<Byte>)

  function Split(stream: seq<Byte>): Parts {
    if stream == [] then Parts([], [])
    else
      var p := Split(stream[..|stream| - 1]);
      var last := stream[|stream| - 1];
      if last == NEWLINE then Parts(p.lines + [p.residue], []) else Parts(p.lines, p.residue + [last])
  }

  /** Lines written one after another, each ended by a newline. */
  function Join(lines: seq<Line>): seq<Byte> {
    if lines == [] then [] else Join(lines[..|lines| - 1]) + lines[|lines| - 1] + [NEWLINE]
  }

  lemma {:induction false} SplitPlain(text: seq<Byte>)
    requires NEWLINE !in text
    ensures Split(text) == Parts([], text)
  {
    if text != [] {
      SplitPlain(text[..|text| - 1]);
      assert text == text[..|text| - 1] + [text[|text| - 1]];
    }
  }

  lemma {:induction false} SplitClean(stream: seq<Byte>)
    ensures NEWLINE !in Split(stream).residue
    ensures forall k :: 0 <= k < |Split(stream).lines| ==> NEWLINE !in Split(stream).lines[k]
  {
    if stream != [] { SplitClean(stream[..|stream| - 1]); }
  }

  /** Splitting can be resumed from the residue alone. */
  lemma {:induction false} SplitResumes(s: seq<Byte>, c: seq<Byte>)
    ensures var p, q := Split(s), Split(Split(s).residue + c);
            Split(s + c) == Parts(p.lines + q.lines, q.residue)
  {
    var p := Split(s);
    if c == [] {
      SplitClean(s);
      SplitPlain(p.residue);
      assert s + c == s && p.residue + c == p.residue;
      assert p.lines + [] == p.lines;
    } else {
      var front, last := c[..|c| - 1], c[|c| - 1];
      SplitResumes(s, front);
      assert (s + c)[..|s + c| - 1] == s + front;
      assert (p.residue + c)[..|p.residue + c| - 1] == p.residue + front;
      var q := Split(p.residue + front);
      if last == NEWLINE { assert p.lines + q.lines + [q.residue] == p.lines + (q.lines + [q.residue]); }
    }
  }

  lemma SplitFirst(line: Line, rest: seq<Byte>)
    requires NEWLINE !in line
    ensures Split(line + [NEWLINE] + rest) == Parts([line] + Split(rest).lines, Split(rest).residue)
  {
    SplitPlain(line);
    assert (line + [NEWLINE])[..|line|] == line;
    assert Split(line + [NEWLINE]) == Parts([line], []);
    SplitResumes(line + [NEWLINE], rest);
    assert [] + rest == rest;
  }

  lemma SplitAppends(s: seq<Byte>, line: Line)
    requires NEWLINE !in line && Split(s).residue == []
    ensures Split(s + line + [NEWLINE]) == Parts(Split(s).lines + [line], [])
  {
    SplitResumes(s, line);
    SplitPlain(line);
    assert [] + line == line;
    assert Split(s).lines + [] == Split(s).lines;
    var t := s + line + [NEWLINE];
    assert t[..|t| - 1] == s + line;
  }

  /** Splitting recovers exactly the lines that were written. */
  lemma {:induction false} SplitJoin(lines: seq<Line>)
    requires forall k :: 0 <= k < |lines| ==> NEWLINE !in lines[k]
    ensures Split(Join(lines)) == Parts(lines, [])
  {
    if lines != [] {
      var front, last := lines[..|lines| - 1], lines[|lines| - 1];
      SplitJoin(front);
      SplitAppends(Join(front), last);
      assert lines == front + [last];
    }
  }

  /** Joining the lines and the residue gives the stream back. */
  lemma {:induction false} JoinSplit(stream: seq<Byte>)
    ensures Join(Split(stream).lines) + Split(stream).residue == stream
  {
    if stream != [] {
      var front, last := stream[..|stream| - 1], stream[|stream| - 1];
      JoinSplit(front);
      var p := Split(front);
      assert stream == front + [last];
      if last == NEWLINE {
        assert (p.lines + [p.residue])[..|p.lines|] == p.lines;
      }
    }
  }

  // ----- Receiving -----

  /** Why a connection is closed: `Hung` covers the peer, a failed call, the handler and the sending side. */
  datatype Status = Open | TooLong | Unparsed | Hung

  datatype Receiver = Receiver(incoming: seq<Byte>, dispatched: seq<Line>, status: Status)

  /** Which lines parse as requests, and after which requests the handler leaves the connection open. */
  datatype Handler = Handler(parses: Line -> bool, keeps: nat -> bool)

  const EMPTY := Receiver([], [], Open)

  function FirstNewline(s: seq<Byte>): (i: nat)
    requires NEWLINE in s
    ensures i < |s| && s[i] == NEWLINE && NEWLINE !in s[..i]
  {
    if s[0] == NEWLINE then 0
    else
      assert s == [s[0]] + s[1..];
      var i := 1 + FirstNewline(s[1..]);
      assert s[..i] == [s[0]] + s[1..][..i - 1];
      i
  }

  function Drain(r: Receiver, h: Handler): Receiver
    decreases |r.incoming|
  {
    if NEWLINE !in r.incoming then r
    else
      var i := FirstNewline(r.incoming);
      var line, rest := r.incoming[..i], r.incoming[i + 1..];
      if !h.parses(line) then Receiver([], r.dispatched, Unparsed)
      else
        var dispatched := r.dispatched + [line];
        if !h.keeps(|dispatched|) then Receiver([], dispatched, Hung)
        else Drain(Receiver(rest, dispatched, r.status), h)
  }

  function Receive(r: Receiver, chunk: seq<Byte>, h: Handler): Receiver {
    if r.status != Open then r
    else if |r.incoming| + |chunk| > MAX_INCOMING then Receiver([], r.dispatched, TooLong)
    else Drain(r.(incoming := r.incoming + chunk), h)
  }

  function ReceiveAll(chunks: seq<seq<Byte>>, h: Handler): Receiver {
    if chunks == [] then EMPTY
    else Receive(ReceiveAll(chunks[..|chunks| - 1], h), chunks[|chunks| - 1], h)
  }

  function Concat(chunks: seq<seq<Byte>>): seq<Byte> {
    if chunks == [] then [] else Concat(chunks[..|chunks| - 1]) + chunks[|chunks| - 1]
  }

  predicate Readable(chunks: seq<seq<Byte>>) {
    forall k :: 0 <= k < |chunks| ==> 0 < |chunks[k]| <= MAX_READ
  }

  lemma {:induction false} DrainFollowsSplit(r: Receiver, h: Handler)
    requires r.status == Open
    ensures var d, p := Drain(r, h), Split(r.incoming);
            && d.dispatched <= r.dispatched + p.lines
            && (d.status == Open ==> d.dispatched == r.dispatched + p.lines && d.incoming == p.residue)
            && (d.status != Open ==> d.incoming == [])
            && d.status != TooLong
    decreases |r.incoming|
  {
    var p := Split(r.incoming);
    if NEWLINE !in r.incoming {
      SplitPlain(r.incoming);
      assert r.dispatched + [] == r.dispatched;
    } else {
      var i := FirstNewline(r.incoming);
      var line, rest := r.incoming[..i], r.incoming[i + 1..];
      assert r.incoming == line + [NEWLINE] + rest;
      SplitFirst(line, rest);
      var dispatched := r.dispatched + [line];
      assert r.dispatched + p.lines == dispatched + Split(rest).lines;
      if h.parses(line) && h.keeps(|dispatched|) {
        DrainFollowsSplit(Receiver(rest, dispatched, r.status), h);
      }
    }
  }

  /**
   For any chunking of a peer's stream, the requests dispatched are a prefix of the stream's lines; an
   open connection has dispatched all of them and holds exactly the residue, which has no newline.
   */
  lemma {:induction false} DispatchFollowsStream(chunks: seq<seq<Byte>>, h: Handler)
    ensures var r, p := ReceiveAll(chunks, h), Split(Concat(chunks));
            && r.dispatched <= p.lines
            && (r.status == Open ==> r.dispatched == p.lines && r.incoming == p.residue && NEWLINE !in r.incoming)
            && (r.status != Open ==> r.incoming == [])
  {
    if chunks != [] {
      var front, chunk := chunks[..|chunks| - 1], chunks[|chunks| - 1];
      DispatchFollowsStream(front, h);
      var r := ReceiveAll(front, h);
      SplitResumes(Concat(front), chunk);
      if r.status == Open && |r.incoming| + |chunk| <= MAX_INCOMING {
        DrainFollowsSplit(r.(incoming := r.incoming + chunk), h);
      }
    }
    SplitClean(Concat(chunks));
  }

  /** Two chunkings of one stream that both leave the connection open dispatch the same requests. */
  lemma ChunkingIsIrrelevant(a: seq<seq<Byte>>, b: seq<seq<Byte>>, h: Handler)
    requires Concat(a) == Concat(b)
    requires ReceiveAll(a, h).status == Open && ReceiveAll(b, h).status == Open
    ensures ReceiveAll(a, h) == ReceiveAll(b, h)
  {
    DispatchFollowsStream(a, h);
    DispatchFollowsStream(b, h);
  }

  // ----- Why a connection closes -----

  datatype Judgement = Judgement(count: nat, status: Status)

  /** The reference: what becomes of lines handed over one by one, after `done` requests. */
  function Judge(lines: seq<Line>, done: nat, h: Handler): Judgement {
    if lines == [] then Judgement(done, Open)
    else if !h.parses(lines[0]) then Judgement(done, Unparsed)
    else if !h.keeps(done + 1) then Judgement(done + 1, Hung)
    else Judge(lines[1..], done + 1, h)
  }

  lemma {:induction false} JudgeJoin(a: seq<Line>, b: seq<Line>, done: nat, h: Handler)
    ensures var j := Judge(a, done, h);
            && (j.status == Open ==> j.count == done + |a|)
            && Judge(a + b, done, h) == if j.status == Open then Judge(b, j.count, h) else j
    decreases |a|
  {
    if a == [] {
      assert a + b == b;
    } else {
      assert (a + b)[0] == a[0] && (a + b)[1..] == a[1..] + b;
      if h.parses(a[0]) && h.keeps(done + 1) { JudgeJoin(a[1..], b, done + 1, h); }
    }
  }

  lemma {:induction false} DrainJudged(r: Receiver, h: Handler)
    requires r.status == Open
    ensures Judgement(|Drain(r, h).dispatched|, Drain(r, h).status) == Judge(Split(r.incoming).lines, |r.dispatched|, h)
    decreases |r.incoming|
  {
    hide Split;
    if NEWLINE !in r.incoming {
      SplitPlain(r.incoming);
    } else {
      var i := FirstNewline(r.incoming);
      var line, rest := r.incoming[..i], r.incoming[i + 1..];
      assert r.incoming == line + [NEWLINE] + rest;
      SplitFirst(line, rest);
      var lines := [line] + Split(rest).lines;
      assert lines[0] == line && lines[1..] == Split(rest).lines;
      if h.parses(line) && h.keeps(|r.dispatched| + 1) {
        DrainJudged(Receiver(rest, r.dispatched + [line], Open), h);
      }
    }
  }

  /** Under any chunking that is not refused for size, the connection fares as the stream's lines do one by one. */
  lemma {:induction false} ReceivedAsJudged(chunks: seq<seq<Byte>>, h: Handler)
    ensures var r := ReceiveAll(chunks, h);
            r.status != TooLong ==> Judgement(|r.dispatched|, r.status) == Judge(Split(Concat(chunks)).lines, 0, h)
  {
    hide Split, Drain, Judge;
    if chunks == [] {
      NothingJudged(h);
    } else {
      var front, chunk := chunks[..|chunks| - 1], chunks[|chunks| - 1];
      ReceivedAsJudged(front, h);
      DispatchFollowsStream(front, h);
      SplitResumes(Concat(front), chunk);
      var r := ReceiveAll(front, h);
      JudgeJoin(Split(Concat(front)).lines, Split(Split(Concat(front)).residue + chunk).lines, 0, h);
      if r.status == Open && |r.incoming| + |chunk| <= MAX_INCOMING {
        DrainJudged(r.(incoming := r.incoming + chunk), h);
      }
    }
  }

  lemma NothingJudged(h: Handler)
    ensures Judge(Split([]).lines, 0, h) == Judgement(0, Open)
  {
  }

  predicate KeptAt(lines: seq<Line>, done: nat, k: nat, h: Handler)
    requires k < |lines|
  {
    h.parses(lines[k]) && h.keeps(done + k + 1)
  }

  /** The first so many lines, after `done` earlier ones, are requests the handler kept. */
  ghost predicate AllKept(lines: seq<Line>, done: nat, count: nat, h: Handler) {
    count <= |lines| && forall k: nat :: k < count ==> KeptAt(lines, done, k, h)
  }

  lemma KeptCons(lines: seq<Line>, done: nat, count: nat, h: Handler)
    requires 0 < count <= |lines|
    ensures AllKept(lines, done, count, h) <==> KeptAt(lines, done, 0, h) && AllKept(lines[1..], done + 1, count - 1, h)
  {
    forall k: nat | 0 < k < count ensures KeptAt(lines, done, k, h) <==> KeptAt(lines[1..], done + 1, k - 1, h) {
      assert lines[k] == lines[1..][k - 1];
      assert done + k + 1 == done + 1 + (k - 1) + 1;
    }
    if AllKept(lines, done, count, h) {
      var rest, next := lines[1..], done + 1;
      forall k: nat | k < count - 1 ensures KeptAt(rest, next, k, h) { assert KeptAt(lines, done, k + 1, h); }
    }
  }

  lemma NoneKept(lines: seq<Line>, done: nat, h: Handler)
    ensures AllKept(lines, done, 0, h)
  {
  }

  lemma {:induction false} JudgedForCause(lines: seq<Line>, done: nat, h: Handler)
    ensures var j := Judge(lines, done, h);
            && done <= j.count <= done + |lines|
            && (j.status == Open || j.status == Unparsed || j.status == Hung)
            && (j.status == Open <==> AllKept(lines, done, |lines|, h))
            && (j.status == Unparsed ==> j.count < done + |lines| && AllKept(lines, done, j.count - done, h) && !h.parses(lines[j.count - done]))
            && (j.status == Hung ==>
                  && j.count > done && AllKept(lines, done, j.count - done - 1, h)
                  && h.parses(lines[j.count - done - 1]) && !h.keeps(j.count))
    decreases |lines|
  {
    if lines != [] {
      hide AllKept;
      NoneKept(lines, done, h);
      KeptCons(lines, done, |lines|, h);
      if KeptAt(lines, done, 0, h) {
        NoneKept(lines[1..], done + 1, h);
        JudgedForCause(lines[1..], done + 1, h);
        var n := Judge(lines, done, h).count - done;
        if 0 < n <= |lines| { KeptCons(lines, done, n, h); }
        if 1 < n <= |lines| { KeptCons(lines, done, n - 1, h); }
      }
    }
  }

  /**
   Over any chunking not refused for size: a connection is open exactly when all its lines were requests that
   parse and were kept; one closed for its content has next a line that does not parse; one that the handler
   let go, a last request that was not kept. Everything before was dispatched.
   */
  lemma ClosedForCause(chunks: seq<seq<Byte>>, h: Handler)
    requires ReceiveAll(chunks, h).status != TooLong
    ensures var r, lines := ReceiveAll(chunks, h), Split(Concat(chunks)).lines;
            && |r.dispatched| <= |lines|
            && (r.status == Open <==> AllKept(lines, 0, |lines|, h))
            && (r.status == Unparsed ==> |r.dispatched| < |lines| && AllKept(lines, 0, |r.dispatched|, h) && !h.parses(lines[|r.dispatched|]))
            && (r.status == Hung ==>
                  && |r.dispatched| > 0 && AllKept(lines, 0, |r.dispatched| - 1, h)
                  && h.parses(lines[|r.dispatched| - 1]) && !h.keeps(|r.dispatched|))
            && (r.status == Open || r.status == Unparsed || r.status == Hung)
  {
    hide Split, ReceiveAll, Judge, AllKept;
    ReceivedAsJudged(chunks, h);
    JudgedForCause(Split(Concat(chunks)).lines, 0, h);
  }

  // ----- The size limit -----

  predicate Within(p: Parts, size: nat) {
    |p.residue| <= size && forall k :: 0 <= k < |p.lines| ==> |p.lines[k]| <= size
  }

  lemma FirstNewlinePast(text: seq<Byte>, c: seq<Byte>)
    requires NEWLINE !in text && NEWLINE in text + c
    ensures FirstNewline(text + c) >= |text|
  {
    var i := FirstNewline(text + c);
    forall k | 0 <= k < |text| ensures (text + c)[k] != NEWLINE { assert (text + c)[k] == text[k]; }
  }

  lemma SplitAtFirst(s: seq<Byte>)
    requires NEWLINE in s
    ensures |Split(s).lines| > 0 && Split(s).lines[0] == s[..FirstNewline(s)]
  {
    var i := FirstNewline(s);
    assert s == s[..i] + [NEWLINE] + s[i + 1..];
    SplitFirst(s[..i], s[i + 1..]);
  }

  /** Text without a newline that opens a stream is within its first line, or within its residue. */
  lemma OpeningIsWithin(text: seq<Byte>, c: seq<Byte>, size: nat)
    requires NEWLINE !in text && Within(Split(text + c), size)
    ensures |text| <= size
  {
    hide Split;
    if NEWLINE in text + c {
      FirstNewlinePast(text, c);
      SplitAtFirst(text + c);
    } else {
      SplitPlain(text + c);
    }
  }

  lemma WithinParts(a: seq<Line>, b: seq<Line>, residue: seq<Byte>, size: nat)
    requires Within(Parts(a + b, residue), size)
    ensures Within(Parts(a, []), size) && Within(Parts(b, residue), size)
  {
    forall k | 0 <= k < |a| ensures |a[k]| <= size { assert a[k] == (a + b)[k]; }
    forall k | 0 <= k < |b| ensures |b[k]| <= size { assert b[k] == (a + b)[|a| + k]; }
  }

  /** A stream has no longer lines and no longer residue than a stream it grows into. */
  lemma WithinPrefix(s: seq<Byte>, c: seq<Byte>, size: nat)
    requires Within(Split(s + c), size)
    ensures Within(Split(s), size)
  {
    hide Split;
    SplitResumes(s, c);
    var p := Split(s);
    var q := Split(p.residue + c);
    WithinParts(p.lines, q.lines, q.residue, size);
    SplitClean(s);
    OpeningIsWithin(p.residue, c, size);
  }

  /** Lines of at most 49,152 bytes are never refused for size, however they are chunked. */
  lemma {:induction false} ShortLinesNeverTooLong(chunks: seq<seq<Byte>>, h: Handler)
    requires Readable(chunks) && Within(Split(Concat(chunks)), MAX_INCOMING - MAX_READ)
    ensures ReceiveAll(chunks, h).status != TooLong
  {
    if chunks != [] {
      var front, chunk := chunks[..|chunks| - 1], chunks[|chunks| - 1];
      WithinPrefix(Concat(front), chunk, MAX_INCOMING - MAX_READ);
      ShortLinesNeverTooLong(front, h);
      DispatchFollowsStream(front, h);
      var r := ReceiveAll(front, h);
      if r.status == Open {
        DrainFollowsSplit(r.(incoming := r.incoming + chunk), h);
      }
    }
  }

  /** A peer whose lines stay within 49,152 bytes, parse and are kept is never closed, and all of them are dispatched. */
  lemma GoodPeerKept(chunks: seq<seq<Byte>>, h: Handler)
    requires Readable(chunks) && Within(Split(Concat(chunks)), 49_152)
    requires AllKept(Split(Concat(chunks)).lines, 0, |Split(Concat(chunks)).lines|, h)
    ensures ReceiveAll(chunks, h).status == Open && ReceiveAll(chunks, h).dispatched == Split(Concat(chunks)).lines
  {
    hide Split, ReceiveAll, AllKept;
    ShortLinesNeverTooLong(chunks, h);
    ClosedForCause(chunks, h);
    DispatchFollowsStream(chunks, h);
  }

  lemma {:induction false} DrainBounds(r: Receiver, h: Handler)
    requires |r.incoming| <= MAX_INCOMING
    requires forall k :: 0 <= k < |r.dispatched| ==> |r.dispatched[k]| < MAX_INCOMING
    ensures forall k :: 0 <= k < |Drain(r, h).dispatched| ==> |Drain(r, h).dispatched[k]| < MAX_INCOMING
    decreases |r.incoming|
  {
    if NEWLINE in r.incoming {
      var i := FirstNewline(r.incoming);
      var line, rest := r.incoming[..i], r.incoming[i + 1..];
      var dispatched := r.dispatched + [line];
      if h.parses(line) && h.keeps(|dispatched|) {
        DrainBounds(Receiver(rest, dispatched, r.status), h);
      }
    }
  }

  /** A line of 65,536 bytes or more is never dispatched. */
  lemma {:induction false} LongLinesNeverDispatched(chunks: seq<seq<Byte>>, h: Handler)
    ensures forall k :: 0 <= k < |ReceiveAll(chunks, h).dispatched| ==> |ReceiveAll(chunks, h).dispatched[k]| < MAX_INCOMING
  {
    if chunks != [] {
      var front, chunk := chunks[..|chunks| - 1], chunks[|chunks| - 1];
      LongLinesNeverDispatched(front, h);
      var r := ReceiveAll(front, h);
      if r.status == Open && |r.incoming| + |chunk| <= MAX_INCOMING {
        DrainBounds(r.(incoming := r.incoming + chunk), h);
      }
    }
  }

  function Zeros(n: nat): seq<Byte> {
    seq(n, _ => 0 as Byte)
  }

  function Singles(n: nat): seq<seq<Byte>> {
    seq(n, _ => [0 as Byte])
  }

  /** Text without a newline, fed byte by byte, just accumulates. */
  lemma {:induction false} Accumulates(n: nat, h: Handler)
    requires n <= MAX_INCOMING
    ensures ReceiveAll(Singles(n), h) == Receiver(Zeros(n), [], Open) && Concat(Singles(n)) == Zeros(n)
  {
    if n > 0 {
      Accumulates(n - 1, h);
      assert Singles(n)[..n - 1] == Singles(n - 1);
      assert Zeros(n - 1) + [0] == Zeros(n);
      assert NEWLINE !in Zeros(n);
    }
  }

  lemma Snoc(chunks: seq<seq<Byte>>, chunk: seq<Byte>, h: Handler)
    ensures ReceiveAll(chunks + [chunk], h) == Receive(ReceiveAll(chunks, h), chunk, h)
    ensures Concat(chunks + [chunk]) == Concat(chunks) + chunk
  {
    assert (chunks + [chunk])[..|chunks|] == chunks;
  }

  /** One byte more than 49,152, and some chunking is refused for size. */
  lemma LongerLinesCanBeTooLong(h: Handler) returns (chunks: seq<seq<Byte>>)
    ensures Readable(chunks) && ReceiveAll(chunks, h).status == TooLong
    ensures Within(Split(Concat(chunks)), MAX_INCOMING - MAX_READ + 1)
  {
    var n := MAX_INCOMING - MAX_READ + 1;
    var tail := [NEWLINE] + Zeros(MAX_READ - 1);
    Accumulates(n, h);
    chunks := Singles(n) + [tail];
    Snoc(Singles(n), tail, h);
    SplitPlain(Zeros(MAX_READ - 1));
    SplitFirst(Zeros(n), Zeros(MAX_READ - 1));
    assert Zeros(n) + tail == Zeros(n) + [NEWLINE] + Zeros(MAX_READ - 1);
  }

  /** 49,152 is the exact length up to which no chunking is refused for size. */
  lemma RefusalLengthExact(size: nat, h: Handler)
    ensures (forall chunks :: Readable(chunks) && Within(Split(Concat(chunks)), size) ==> ReceiveAll(chunks, h).status != TooLong)
            <==> size <= 49_152
  {
    if size <= 49_152 {
      forall chunks | Readable(chunks) && Within(Split(Concat(chunks)), size)
        ensures ReceiveAll(chunks, h).status != TooLong
      {
        ShortLinesNeverTooLong(chunks, h);
      }
    } else {
      var chunks := LongerLinesCanBeTooLong(h);
      assert Within(Split(Concat(chunks)), size);
    }
  }

  lemma FirstNewlineIs(line: Line, rest: seq<Byte>)
    requires NEWLINE !in line
    ensures FirstNewline(line + [NEWLINE] + rest) == |line|
  {
    var s := line + [NEWLINE] + rest;
    assert s[|line|] == NEWLINE;
    var i := FirstNewline(s);
    forall k | 0 <= k < |line| ensures s[k] != NEWLINE { assert s[k] == line[k]; }
    assert forall k :: 0 <= k < i ==> s[..i][k] == s[k];
  }

  lemma ReceiveLine(line: Line, h: Handler)
    requires NEWLINE !in line && |line| < MAX_INCOMING && h.parses(line)
    ensures Receive(Receiver(line, [], Open), [NEWLINE], h).dispatched == [line]
  {
    var s := line + [NEWLINE];
    FirstNewlineIs(line, []);
    assert line + [NEWLINE] + [] == s;
    assert s[|line|] == NEWLINE;
    assert s[..|line|] == line && s[|line| + 1..] == [];
    assert [] + [line] == [line];
    var r := Receiver(s, [], Open);
    assert Drain(r, h).dispatched == [line];
  }

  /** A line of up to 65,535 bytes is dispatched under some chunking. */
  lemma LongLineDispatched(size: nat, h: Handler) returns (chunks: seq<seq<Byte>>)
    requires size < MAX_INCOMING && h.parses(Zeros(size))
    ensures Readable(chunks) && ReceiveAll(chunks, h).dispatched == [Zeros(size)]
  {
    Accumulates(size, h);
    chunks := Singles(size) + [[NEWLINE]];
    Snoc(Singles(size), [NEWLINE], h);
    ReceiveLine(Zeros(size), h);
  }

  /** 65,535 is the exact length up to which a line can be dispatched at all. */
  lemma DispatchLengthExact(size: nat, h: Handler)
    requires forall line :: h.parses(line)
    ensures (exists chunks, k :: 0 <= k < |ReceiveAll(chunks, h).dispatched| && |ReceiveAll(chunks, h).dispatched[k]| == size)
            <==> size < 65_536
  {
    if size < 65_536 {
      var chunks := LongLineDispatched(size, h);
      assert |ReceiveAll(chunks, h).dispatched[0]| == size;
    } else {
      forall chunks, k | 0 <= k < |ReceiveAll(chunks, h).dispatched|
        ensures |ReceiveAll(chunks, h).dispatched[k]| != size
      {
        LongLinesNeverDispatched(chunks, h);
      }
    }
  }
}
