/**
 The ssh-agent wire as the end-to-end tests speak it (e2e/stub/relay-spec.ts): strings as in section 5 of
 RFC 4251, the identities answer, and the reader that reassembles one framed reply.
 */
module AgentWire {
  import opened Outcomes

  type Byte = n: int | 0 <= n < 256

  type Word = n: int | 0 <= n < 0x1_0000_0000

  const ANSWER: Byte := 12
  const SIGN: Byte := 13

  // ----- Words and strings -----

  function Be32(n: Word): (r: seq<Byte>)
    ensures |r| == 4
  {
    [n / 0x100_0000, n / 0x1_0000 % 0x100, n / 0x100 % 0x100, n % 0x100]
  }

  function Word32(a: Byte, b: Byte, c: Byte, d: Byte): Word {
    ((a * 0x100 + b) * 0x100 + c) * 0x100 + d
  }

  /** Reading a word fails past the end of the buffer. */
  function ReadWord(s: seq<Byte>, at: nat): Option<Word> {
    if at + 4 <= |s| then Some(Word32(s[at], s[at + 1], s[at + 2], s[at + 3])) else None
  }

  lemma WordsInverse(n: Word)
    ensures Word32(Be32(n)[0], Be32(n)[1], Be32(n)[2], Be32(n)[3]) == n
  {
    var high := n / 0x1_0000;
    assert n == high * 0x1_0000 + n / 0x100 % 0x100 * 0x100 + n % 0x100;
    assert n / 0x100_0000 == high / 0x100;
  }

  lemma BytesInverse(a: Byte, b: Byte, c: Byte, d: Byte)
    ensures Be32(Word32(a, b, c, d)) == [a, b, c, d]
  {
    var n := Word32(a, b, c, d);
    assert n / 0x100 == (a * 0x100 + b) * 0x100 + c;
    assert n / 0x1_0000 == a * 0x100 + b;
    assert n / 0x100_0000 == a;
  }

  function SshString(s: seq<Byte>): seq<Byte>
    requires |s| < 0x1_0000_0000
  {
    Be32(|s|) + s
  }

  /** What is read at an offset is the word written there, and the bytes there are the word's. */
  lemma ReadWritten(before: seq<Byte>, n: Word, after: seq<Byte>)
    ensures ReadWord(before + Be32(n) + after, |before|) == Some(n)
  {
    WordsInverse(n);
    var s := before + Be32(n) + after;
    forall k | 0 <= k < 4 ensures s[|before| + k] == Be32(n)[k] {}
  }

  lemma WrittenRead(s: seq<Byte>, at: nat)
    requires ReadWord(s, at).Some?
    ensures s[at..at + 4] == Be32(ReadWord(s, at).value)
  {
    BytesInverse(s[at], s[at + 1], s[at + 2], s[at + 3]);
  }

  /** A subarray is cut off at the end of the buffer. */
  function Subarray(s: seq<Byte>, from: nat, to: nat): seq<Byte> {
    if from <= to <= |s| then s[from..to] else if from <= |s| && from <= to then s[from..] else []
  }

  // ----- The identities answer -----

  datatype Entry = Entry(blob: seq<Byte>, comment: seq<Byte>)

  predicate Fits(e: Entry) {
    |e.blob| < 0x1_0000_0000 && |e.comment| < 0x1_0000_0000
  }

  predicate Encodable(entries: seq<Entry>) {
    |entries| < 0x1_0000_0000 && forall k :: 0 <= k < |entries| ==> Fits(entries[k])
  }

  function EncodeEntry(e: Entry): seq<Byte>
    requires Fits(e)
  {
    SshString(e.blob) + SshString(e.comment)
  }

  function EncodeEntries(entries: seq<Entry>): seq<Byte>
    requires forall k :: 0 <= k < |entries| ==> Fits(entries[k])
  {
    if entries == [] then [] else EncodeEntry(entries[0]) + EncodeEntries(entries[1..])
  }

  function Encode(entries: seq<Entry>): seq<Byte>
    requires Encodable(entries)
  {
    [ANSWER] + Be32(|entries|) + EncodeEntries(entries)
  }

  datatype Parsed = Parsed(entries: seq<Entry>, next: nat)

  function ParseEntry(s: seq<Byte>, at: nat): Option<(Entry, nat)> {
    match ReadWord(s, at)
    case None => None
    case Some(blobLength) =>
      var blob := Subarray(s, at + 4, at + 4 + blobLength);
      var middle := at + 4 + blobLength;
      match ReadWord(s, middle)
      case None => None
      case Some(length) =>
        Some((Entry(blob, Subarray(s, middle + 4, middle + 4 + length)), middle + 4 + length))
  }

  function ParseEntries(s: seq<Byte>, at: nat, count: nat): Option<Parsed>
    decreases count
  {
    if count == 0 then Some(Parsed([], at))
    else match ParseEntry(s, at)
      case None => None
      case Some((entry, next)) =>
        match ParseEntries(s, next, count - 1)
        case None => None
        case Some(p) => Some(Parsed([entry] + p.entries, p.next))
  }

  function Parse(s: seq<Byte>): Option<seq<Entry>> {
    if |s| == 0 || s[0] != ANSWER then None
    else match ReadWord(s, 1)
      case None => None
      case Some(count) =>
        match ParseEntries(s, 5, count)
        case None => None
        case Some(p) => if p.next == |s| then Some(p.entries) else None
  }

  lemma ParsesEntry(before: seq<Byte>, e: Entry, after: seq<Byte>)
    requires Fits(e)
    ensures ParseEntry(before + EncodeEntry(e) + after, |before|) == Some((e, |before| + |EncodeEntry(e)|))
  {
    hide ReadWord, Be32;
    var s := before + EncodeEntry(e) + after;
    var rest := e.blob + SshString(e.comment) + after;
    assert s == before + Be32(|e.blob|) + rest;
    ReadWritten(before, |e.blob|, rest);
    var middle := before + SshString(e.blob);
    assert s == middle + Be32(|e.comment|) + (e.comment + after);
    ReadWritten(middle, |e.comment|, e.comment + after);
    assert s[|before| + 4..|middle|] == e.blob;
    assert s[|middle| + 4..|middle| + 4 + |e.comment|] == e.comment;
  }

  lemma Assoc(a: seq<Byte>, b: seq<Byte>, c: seq<Byte>)
    ensures a + (b + c) == a + b + c
  {
  }

  lemma Cut(s: seq<Byte>, a: nat, b: nat, c: nat)
    requires a <= b <= c <= |s|
    ensures s[a..c] == s[a..b] + s[b..c]
  {
  }

  lemma {:induction false} ParsesEntries(before: seq<Byte>, entries: seq<Entry>)
    requires forall k :: 0 <= k < |entries| ==> Fits(entries[k])
    ensures ParseEntries(before + EncodeEntries(entries), |before|, |entries|)
         == Some(Parsed(entries, |before| + |EncodeEntries(entries)|))
    decreases |entries|
  {
    hide ParseEntry, EncodeEntry;
    if entries != [] {
      var first, rest := EncodeEntry(entries[0]), EncodeEntries(entries[1..]);
      ParsesEntry(before, entries[0], rest);
      ParsesEntries(before + first, entries[1..]);
      Assoc(before, first, rest);
      assert [entries[0]] + entries[1..] == entries;
    }
  }

  /** Parsing an encoded answer gives back its entries. */
  lemma ParseEncode(entries: seq<Entry>)
    requires Encodable(entries)
    ensures Parse(Encode(entries)) == Some(entries)
  {
    hide ReadWord, Be32;
    ReadWritten([ANSWER], |entries|, EncodeEntries(entries));
    ParsesEntries([ANSWER] + Be32(|entries|), entries);
  }

  lemma EntryRead(s: seq<Byte>, at: nat)
    requires ParseEntry(s, at).Some? && ParseEntry(s, at).value.1 <= |s|
    ensures var (e, next) := ParseEntry(s, at).value;
            Fits(e) && at <= next && s[at..next] == EncodeEntry(e)
  {
    hide Be32, ReadWord;
    ReadsInside(s, at);
    var n := ReadWord(s, at).value;
    var middle := at + 4 + n;
    ReadsInside(s, middle);
    WrittenRead(s, at);
    WrittenRead(s, middle);
    var (e, next) := ParseEntry(s, at).value;
    assert s[at..next] == s[at..at + 4] + s[at + 4..middle] + s[middle..middle + 4] + s[middle + 4..next];
    assert SshString(e.blob) == s[at..at + 4] + s[at + 4..middle];
  }

  lemma ReadsInside(s: seq<Byte>, at: nat)
    requires ReadWord(s, at).Some?
    ensures at + 4 <= |s|
  {
  }

  lemma {:induction false} EntriesAdvance(s: seq<Byte>, at: nat, count: nat)
    requires ParseEntries(s, at, count).Some?
    ensures at <= ParseEntries(s, at, count).value.next && |ParseEntries(s, at, count).value.entries| == count
    decreases count
  {
    if count > 0 { EntriesAdvance(s, ParseEntry(s, at).value.1, count - 1); }
  }

  lemma {:induction false} EntriesRead(s: seq<Byte>, at: nat, count: nat)
    requires ParseEntries(s, at, count).Some? && ParseEntries(s, at, count).value.next <= |s|
    ensures var p := ParseEntries(s, at, count).value;
            && (forall k :: 0 <= k < |p.entries| ==> Fits(p.entries[k]))
            && at <= p.next && s[at..p.next] == EncodeEntries(p.entries)
    decreases count
  {
    hide ParseEntry, EncodeEntry, Fits;
    if count > 0 {
      var e, next := ParseEntry(s, at).value.0, ParseEntry(s, at).value.1;
      EntriesAdvance(s, next, count - 1);
      EntryRead(s, at);
      EntriesRead(s, next, count - 1);
      var p, q := ParseEntries(s, at, count).value, ParseEntries(s, next, count - 1).value;
      assert p.entries == [e] + q.entries;
      assert p.entries[0] == e && p.entries[1..] == q.entries;
      Cut(s, at, next, p.next);
    }
  }

  /** Whatever the parser accepts is the encoding of what it returns, although its subarrays are cut off silently. */
  lemma EncodeParse(s: seq<Byte>)
    requires Parse(s).Some?
    ensures Encodable(Parse(s).value) && Encode(Parse(s).value) == s
  {
    hide Be32;
    var count := ReadWord(s, 1).value;
    EntriesAdvance(s, 5, count);
    EntriesRead(s, 5, count);
    WrittenRead(s, 1);
    assert s == s[..1] + s[1..5] + s[5..];
    assert s[..1] == [ANSWER];
  }

  /** The parser accepts exactly the encodings. */
  lemma ParseExact(s: seq<Byte>, entries: seq<Entry>)
    ensures Parse(s) == Some(entries) <==> Encodable(entries) && s == Encode(entries)
  {
    if Parse(s) == Some(entries) { EncodeParse(s); }
    if Encodable(entries) { ParseEncode(entries); }
  }

  // ----- The framed reply -----

  /** The first frame of a stream, once all of it is there. */
  function FirstFrame(stream: seq<Byte>): Option<seq<Byte>> {
    match ReadWord(stream, 0)
    case None => None
    case Some(n) => if 4 + n <= |stream| then Some(stream[4..4 + n]) else None
  }

  function Concat(chunks: seq<seq<Byte>>): seq<Byte> {
    if chunks == [] then [] else Concat(chunks[..|chunks| - 1]) + chunks[|chunks| - 1]
  }

  /** The reader after some chunks: what it has buffered, and the reply it gave. */
  datatype Reader = Reader(buffer: seq<Byte>, reply: Option<seq<Byte>>)

  function Feed(r: Reader, chunk: seq<Byte>): Reader {
    if r.reply.Some? then r else Reader(r.buffer + chunk, FirstFrame(r.buffer + chunk))
  }

  function FeedAll(chunks: seq<seq<Byte>>): Reader {
    if chunks == [] then Reader([], None) else Feed(FeedAll(chunks[..|chunks| - 1]), chunks[|chunks| - 1])
  }

  lemma FrameStays(stream: seq<Byte>, more: seq<Byte>)
    requires FirstFrame(stream).Some?
    ensures FirstFrame(stream + more) == FirstFrame(stream)
  {
    forall k | 0 <= k < 4 ensures (stream + more)[k] == stream[k] {}
    var n: nat := ReadWord(stream, 0).value;
    assert (stream + more)[4..4 + n] == stream[4..4 + n];
  }

  /** However a stream arrives, the reply is its first frame, as soon as that is complete. */
  lemma {:induction false} ReplyIsFirstFrame(chunks: seq<seq<Byte>>)
    ensures FeedAll(chunks).reply == FirstFrame(Concat(chunks))
    ensures FeedAll(chunks).reply.None? ==> FeedAll(chunks).buffer == Concat(chunks)
  {
    if chunks != [] {
      var front := chunks[..|chunks| - 1];
      ReplyIsFirstFrame(front);
      if FeedAll(front).reply.Some? { FrameStays(Concat(front), chunks[|chunks| - 1]); }
    }
  }

  /** An answer sent in one frame is read back entry for entry under every chunking, whatever follows it. */
  lemma AnswerSurvivesChunking(entries: seq<Entry>, chunks: seq<seq<Byte>>, after: seq<Byte>)
    requires Encodable(entries) && |Encode(entries)| < 0x1_0000_0000
    requires Concat(chunks) == SshString(Encode(entries)) + after
    ensures FeedAll(chunks).reply.Some? && Parse(FeedAll(chunks).reply.value) == Some(entries)
  {
    hide Be32, Parse, Encode;
    var payload := Encode(entries);
    ReplyIsFirstFrame(chunks);
    ReadWritten([], |payload|, payload + after);
    assert [] + Be32(|payload|) + (payload + after) == SshString(payload) + after;
    assert (SshString(payload) + after)[4..4 + |payload|] == payload;
    ParseEncode(entries);
  }

  // ----- The sign request -----

  const ALGORITHM: seq<Byte> := [115, 115, 104, 45, 101, 100, 50, 53, 53, 49, 57]

  function SignRequest(blob: seq<Byte>, data: seq<Byte>, withAlgorithm: bool): seq<Byte>
    requires |blob| < 0x1_0000_0000 && |data| < 0x1_0000_0000
  {
    [SIGN] + SshString(blob) + SshString(data) + Be32(0) + if withAlgorithm then SshString(ALGORITHM) else []
  }

  lemma StringsPrefixFree(a: seq<Byte>, x: seq<Byte>, b: seq<Byte>, y: seq<Byte>)
    requires |a| < 0x1_0000_0000 && |b| < 0x1_0000_0000 && SshString(a) + x == SshString(b) + y
    ensures a == b && x == y
  {
    hide Be32, ReadWord;
    ReadWritten([], |a|, a + x);
    ReadWritten([], |b|, b + y);
    assert [] + Be32(|a|) + (a + x) == SshString(a) + x;
    assert [] + Be32(|b|) + (b + y) == SshString(b) + y;
    assert (SshString(a) + x)[4..4 + |a|] == a && (SshString(b) + y)[4..4 + |b|] == b;
    assert (SshString(a) + x)[4 + |a|..] == x && (SshString(b) + y)[4 + |b|..] == y;
  }

  /** Two sign requests are the same bytes only if they ask for the same. */
  lemma SignRequestInjective(b: seq<Byte>, d: seq<Byte>, w: bool, c: seq<Byte>, e: seq<Byte>, v: bool)
    requires |b| < 0x1_0000_0000 && |d| < 0x1_0000_0000 && |c| < 0x1_0000_0000 && |e| < 0x1_0000_0000
    requires SignRequest(b, d, w) == SignRequest(c, e, v)
    ensures b == c && d == e && w == v
  {
    hide Be32, SshString;
    var p := Be32(0) + if w then SshString(ALGORITHM) else [];
    var q := Be32(0) + if v then SshString(ALGORITHM) else [];
    assert SignRequest(b, d, w)[1..] == SshString(b) + (SshString(d) + p);
    assert SignRequest(c, e, v)[1..] == SshString(c) + (SshString(e) + q);
    StringsPrefixFree(b, SshString(d) + p, c, SshString(e) + q);
    StringsPrefixFree(d, p, e, q);
    AlgorithmSize();
  }

  lemma AlgorithmSize()
    ensures |SshString(ALGORITHM)| == 15
  {
  }

  datatype Signing = Signing(kind: Byte, blob: seq<Byte>, data: seq<Byte>, flags: Word, trailer: seq<Byte>)

  /** An independent reader: the string at an offset, and where it ends. */
  function ReadString(s: seq<Byte>, at: nat): Option<(seq<Byte>, nat)> {
    match ReadWord(s, at)
    case None => None
    case Some(n) => if at + 4 + n <= |s| then Some((s[at + 4..at + 4 + n], at + 4 + n)) else None
  }

  function ReadSigning(s: seq<Byte>): Option<Signing> {
    if s == [] then None
    else match ReadString(s, 1)
      case None => None
      case Some((blob, b)) =>
        match ReadString(s, b)
        case None => None
        case Some((data, d)) =>
          match ReadWord(s, d)
          case None => None
          case Some(flags) => Some(Signing(s[0], blob, data, flags, s[d + 4..]))
  }

  lemma ReadsString(before: seq<Byte>, text: seq<Byte>, after: seq<Byte>)
    requires |text| < 0x1_0000_0000
    ensures ReadString(before + SshString(text) + after, |before|) == Some((text, |before| + 4 + |text|))
  {
    hide Be32, ReadWord;
    ReadWritten(before, |text|, text + after);
    var s := before + SshString(text) + after;
    assert s == before + Be32(|text|) + (text + after);
    assert s[|before| + 4..|before| + 4 + |text|] == text;
  }

  /** A sign request reads back as type 13, the key, the data, flags 0 and at most the algorithm's name. */
  lemma SignRequestRead(blob: seq<Byte>, data: seq<Byte>, withAlgorithm: bool)
    requires |blob| < 0x1_0000_0000 && |data| < 0x1_0000_0000
    ensures ReadSigning(SignRequest(blob, data, withAlgorithm))
         == Some(Signing(13, blob, data, 0, if withAlgorithm then SshString(ALGORITHM) else []))
  {
    hide Be32, SshString, ReadWord, ReadString;
    StringLength(blob);
    StringLength(data);
    var s := SignRequest(blob, data, withAlgorithm);
    var trailer := if withAlgorithm then SshString(ALGORITHM) else [];
    var first, second := [SIGN] + SshString(blob), [SIGN] + SshString(blob) + SshString(data);
    assert s == [SIGN] + SshString(blob) + (SshString(data) + Be32(0) + trailer);
    ReadsString([SIGN], blob, SshString(data) + Be32(0) + trailer);
    assert s == first + SshString(data) + (Be32(0) + trailer);
    ReadsString(first, data, Be32(0) + trailer);
    assert s == second + Be32(0) + trailer;
    ReadWritten(second, 0, trailer);
    assert s[|second| + 4..] == trailer;
  }

  lemma StringLength(text: seq<Byte>)
    requires |text| < 0x1_0000_0000
    ensures |SshString(text)| == 4 + |text|
  {
  }

  /** Words are big-endian, as in section 5 of RFC 4251: the greater of two words differs first in a greater byte. */
  lemma WordsOrdered(a: Word, b: Word)
    requires a < b
    ensures exists k :: 0 <= k < 4 && Be32(a)[..k] == Be32(b)[..k] && Be32(a)[k] < Be32(b)[k]
  {
    var x, y := Be32(a), Be32(b);
    WordsInverse(a);
    WordsInverse(b);
    if x[0] != y[0] {
      assert x[..0] == y[..0];
    } else if x[1] != y[1] {
      assert x[..1] == y[..1];
    } else if x[2] != y[2] {
      assert x[..2] == y[..2];
    } else {
      assert x[..3] == y[..3];
    }
  }

  /** The bytes of one word and of an empty answer, written out. */
  lemma WrittenOut()
    ensures Be32(0x0102_0304) == [1, 2, 3, 4]
    ensures Encode([]) == [12, 0, 0, 0, 0]
  {
  }

  // ----- The loops -----

  method ParseIdentities(answer: seq<Byte>) returns (entries: Option<seq<Entry>>)
    ensures entries == Parse(answer)
  {
    hide ReadWord, ParseEntry;
    if |answer| == 0 || answer[0] != ANSWER {
      return None;
    }
    var count := ReadWord(answer, 1);
    if count.None? {
      return None;
    }
    var found: seq<Entry>, offset: nat := [], 5;
    PrependNothing(ParseEntries(answer, 5, count.value));
    for i := 0 to count.value
      invariant ParseEntries(answer, 5, count.value) == Prepend(found, ParseEntries(answer, offset, count.value - i))
    {
      var entry := ParseEntry(answer, offset);
      if entry.None? {
        return None;
      }
      PrependMore(found, entry.value.0, ParseEntries(answer, entry.value.1, count.value - i - 1));
      found, offset := found + [entry.value.0], entry.value.1;
    }
    assert found + [] == found;
    return if offset == |answer| then Some(found) else None;
  }

  function Prepend(found: seq<Entry>, p: Option<Parsed>): Option<Parsed> {
    if p.Some? then Some(Parsed(found + p.value.entries, p.value.next)) else None
  }

  lemma PrependNothing(p: Option<Parsed>)
    ensures Prepend([], p) == p
  {
    if p.Some? { assert [] + p.value.entries == p.value.entries; }
  }

  lemma PrependMore(found: seq<Entry>, e: Entry, p: Option<Parsed>)
    ensures Prepend(found + [e], p) == Prepend(found, Prepend([e], p))
  {
    if p.Some? { assert found + [e] + p.value.entries == found + ([e] + p.value.entries); }
  }

  /** The socket's reader: `resolved` once the reply was handed over, after which the socket is gone. */
  class FrameReader {
    var buffer: seq<Byte>
    var resolved: Option<seq<Byte>>

    constructor ()
      ensures View() == Reader([], None)
    {
      buffer, resolved := [], None;
    }

    function View(): Reader
      reads this
    {
      Reader(buffer, resolved)
    }

    method OnData(chunk: seq<Byte>)
      modifies this
      ensures View() == Feed(old(View()), chunk)
    {
      if resolved.Some? {
        return;
      }
      buffer := buffer + chunk;
      if |buffer| >= 4 {
        var n: nat := ReadWord(buffer, 0).value;
        if |buffer| >= 4 + n {
          resolved := Some(buffer[4..4 + n]);
        }
      }
    }
  }
}
