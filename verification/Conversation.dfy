/**
 One conversation file (engine/conversation_store.py, append_lines of engine/eventlog_rotation.py): torn
 appends, the incremental tally of readable messages, and the caches of several store instances.
 Every method runs under the session's lock, which is taken as given.
*/
module Conversation {
  import opened Common

  newtype byte = x: int | 0 <= x < 256

  const LF: byte := 10
  const CR: byte := 13
  const EDGE_BYTES := 256

  datatype Message = Message(id: string, body: string, ephemeral: bool)

  type Parser = seq<byte> -> Option<Message>
  type Encoder = Message -> seq<byte>

  // ---- UTF-8 ----

  predicate Continuation(s: seq<byte>, i: nat, low: byte, high: byte) {
    i < |s| && low <= s[i] <= high
  }

  /** The length of the well-formed character at the head, 0 if there is none (table 3-7 of the Unicode Standard; section 4 of RFC 3629). */
  function CharLength(s: seq<byte>): (n: nat)
    ensures n <= |s|
  {
    if s == [] then 0
    else if s[0] < 0x80 then 1
    else if 0xC2 <= s[0] <= 0xDF && Continuation(s, 1, 0x80, 0xBF) then 2
    else if 0xE0 <= s[0] <= 0xEF
            && Continuation(s, 1, if s[0] == 0xE0 then 0xA0 else 0x80, if s[0] == 0xED then 0x9F else 0xBF)
            && Continuation(s, 2, 0x80, 0xBF) then 3
    else if 0xF0 <= s[0] <= 0xF4
            && Continuation(s, 1, if s[0] == 0xF0 then 0x90 else 0x80, if s[0] == 0xF4 then 0x8F else 0xBF)
            && Continuation(s, 2, 0x80, 0xBF) && Continuation(s, 3, 0x80, 0xBF) then 4
    else 0
  }

  /** The Unicode scalar values: all code points but the surrogates. */
  predicate Scalar(c: nat) {
    c <= 0x10FFFF && !(0xD800 <= c <= 0xDFFF)
  }

  /** The encoding of a scalar value (section 3 of RFC 3629). */
  function Utf8(c: nat): (r: seq<byte>)
    requires Scalar(c)
    ensures 1 <= |r| <= 4
  {
    if c < 0x80 then [c as byte]
    else if c < 0x800 then [(0xC0 + c / 64) as byte, (0x80 + c % 64) as byte]
    else if c < 0x1_0000 then [(0xE0 + c / 4096) as byte, (0x80 + c / 64 % 64) as byte, (0x80 + c % 64) as byte]
    else [(0xF0 + c / 262144) as byte, (0x80 + c / 4096 % 64) as byte, (0x80 + c / 64 % 64) as byte, (0x80 + c % 64) as byte]
  }

  function Utf8All(text: seq<nat>): seq<byte>
    requires forall i | 0 <= i < |text| :: Scalar(text[i])
  {
    if text == [] then [] else Utf8(text[0]) + Utf8All(text[1..])
  }

  lemma EncodedIsCharacter(c: nat, rest: seq<byte>)
    requires Scalar(c)
    ensures CharLength(Utf8(c) + rest) == |Utf8(c)|
  {
    var s := Utf8(c) + rest;
    assert forall i | 0 <= i < |Utf8(c)| :: s[i] == Utf8(c)[i];
  }

  lemma CharacterIsEncoded(s: seq<byte>) returns (c: nat)
    requires CharLength(s) > 0
    ensures Scalar(c) && Utf8(c) == s[..CharLength(s)]
  {
    var n := CharLength(s);
    if n == 1 {
      c := s[0] as nat;
      assert s[..1] == [s[0]];
    } else if n == 2 {
      c := OfTwo(s[0], s[1]);
      assert s[..2] == [s[0], s[1]];
    } else if n == 3 {
      c := OfThree(s[0], s[1], s[2]);
      assert s[..3] == [s[0], s[1], s[2]];
    } else {
      c := OfFour(s[0], s[1], s[2], s[3]);
      assert s[..4] == [s[0], s[1], s[2], s[3]];
    }
  }

  lemma OfTwo(a: byte, b: byte) returns (c: nat)
    requires 0xC2 <= a <= 0xDF && 0x80 <= b <= 0xBF
    ensures Scalar(c) && Utf8(c) == [a, b]
  {
    c := (a as nat - 0xC0) * 64 + (b as nat - 0x80);
    Digits(a as nat - 0xC0, b as nat - 0x80);
  }

  lemma OfThree(a: byte, b: byte, d: byte) returns (c: nat)
    requires 0xE0 <= a <= 0xEF && 0x80 <= b <= 0xBF && 0x80 <= d <= 0xBF
    requires (a == 0xE0 ==> b >= 0xA0) && (a == 0xED ==> b <= 0x9F)
    ensures Scalar(c) && Utf8(c) == [a, b, d]
  {
    var u, v, w := a as nat - 0xE0, b as nat - 0x80, d as nat - 0x80;
    c := (u * 64 + v) * 64 + w;
    Digits(u * 64 + v, w);
    Digits(u, v);
    Twice(c);
  }

  lemma OfFour(a: byte, b: byte, d: byte, e: byte) returns (c: nat)
    requires 0xF0 <= a <= 0xF4 && 0x80 <= b <= 0xBF && 0x80 <= d <= 0xBF && 0x80 <= e <= 0xBF
    requires (a == 0xF0 ==> b >= 0x90) && (a == 0xF4 ==> b <= 0x8F)
    ensures Scalar(c) && Utf8(c) == [a, b, d, e]
  {
    var u, v, w, x := a as nat - 0xF0, b as nat - 0x80, d as nat - 0x80, e as nat - 0x80;
    c := ((u * 64 + v) * 64 + w) * 64 + x;
    Digits((u * 64 + v) * 64 + w, x);
    Digits(u * 64 + v, w);
    Digits(u, v);
    Twice(c);
  }

  lemma Twice(c: nat)
    ensures c / 64 / 64 == c / 4096 && c / 4096 / 64 == c / 262144
  {
  }

  lemma Digits(high: nat, low: nat)
    requires low < 64
    ensures (high * 64 + low) / 64 == high && (high * 64 + low) % 64 == low
  {
  }

  /** Strict decoding succeeds. */
  predicate Decodable(s: seq<byte>) {
    s == [] || (CharLength(s) > 0 && Decodable(s[CharLength(s)..]))
  }

  /** Strict decoding succeeds exactly on the encodings of texts. */
  lemma {:induction false} DecodableIsEncoded(s: seq<byte>)
    ensures Decodable(s) <==> exists text: seq<nat> :: (forall i | 0 <= i < |text| :: Scalar(text[i])) && Utf8All(text) == s
  {
    if Decodable(s) {
      var text := TextOf(s);
    }
    forall text: seq<nat> | (forall i | 0 <= i < |text| :: Scalar(text[i])) && Utf8All(text) == s ensures Decodable(s) {
      EncodedIsDecodable(text);
    }
  }

  lemma {:induction false} TextOf(s: seq<byte>) returns (text: seq<nat>)
    requires Decodable(s)
    ensures (forall i | 0 <= i < |text| :: Scalar(text[i])) && Utf8All(text) == s
  {
    if s == [] {
      text := [];
    } else {
      var c := CharacterIsEncoded(s);
      var rest := TextOf(s[CharLength(s)..]);
      text := [c] + rest;
      assert text[1..] == rest;
    }
  }

  lemma {:induction false} EncodedIsDecodable(text: seq<nat>)
    requires forall i | 0 <= i < |text| :: Scalar(text[i])
    ensures Decodable(Utf8All(text))
  {
    if text != [] {
      EncodedIsDecodable(text[1..]);
      EncodedIsCharacter(text[0], Utf8All(text[1..]));
      assert Utf8All(text)[|Utf8(text[0])|..] == Utf8All(text[1..]);
    }
  }

  /** After a decodable stretch decoding goes on as if it started there. */
  lemma {:induction false} DecodableSplit(a: seq<byte>, b: seq<byte>)
    requires Decodable(a)
    ensures Decodable(a + b) <==> Decodable(b)
  {
    if a == [] {
      assert a + b == b;
    } else {
      var n := CharLength(a);
      assert CharLength(a + b) == n && (a + b)[n..] == a[n..] + b;
      DecodableSplit(a[n..], b);
    }
  }

  /** A byte inside a character, never at its head. */
  predicate Inner(b: byte) {
    0x80 <= b <= 0xBF
  }

  /** A front stretch of decodable bytes is decodable exactly if it does not end inside a character. */
  lemma {:induction false} DecodableCut(s: seq<byte>, n: nat)
    requires Decodable(s) && n < |s|
    ensures Decodable(s[..n]) <==> !Inner(s[n])
  {
    var c := CharLength(s);
    if n >= c {
      assert CharLength(s[..n]) == c && s[..n][c..] == s[c..][..n - c];
      DecodableCut(s[c..], n - c);
    } else if n > 0 {
      CutCharacter(s, n);
    }
  }

  lemma CutCharacter(s: seq<byte>, n: nat)
    requires 0 < n < CharLength(s)
    ensures Inner(s[n]) && !Decodable(s[..n])
  {
    assert CharLength(s[..n]) == 0;
  }

  /** A decodable file with a decodable text, cut off, behind it was decodable before. */
  lemma FrontDecodes(file: seq<byte>, s: seq<byte>, n: nat)
    requires Decodable(s) && n <= |s| && Decodable(file + s[..n])
    ensures Decodable(file)
  {
    var joined := file + s[..n];
    if n > 0 {
      DecodableCut(joined, |file|);
      assert joined[|file|] == s[0] && joined[..|file|] == file;
    } else {
      assert joined == file;
    }
  }

  lemma DecodableJoin(file: seq<byte>, s: seq<byte>)
    requires Decodable(s)
    ensures Decodable(file + s) <==> Decodable(file)
  {
    assert s[..|s|] == s;
    if Decodable(file) {
      DecodableSplit(file, s);
    } else if Decodable(file + s) {
      FrontDecodes(file, s, |s|);
    }
  }

  // ---- lines ----

  predicate IsBreak(b: byte) {
    b == LF || b == CR
  }

  function Emit(line: seq<byte>, parse: Parser): seq<Message> {
    match parse(line) case None => [] case Some(m) => [m]
  }

  /** The messages of the lines of `data`, the first of which began with `line`. */
  function Scan(line: seq<byte>, data: seq<byte>, parse: Parser): seq<Message>
    decreases |data|
  {
    if data == [] then Emit(line, parse)
    else if IsBreak(data[0]) then Emit(line, parse) + Scan([], data[1..], parse)
    else Scan(line + [data[0]], data[1..], parse)
  }

  /** `_readable_messages`: unreadable and blank lines are skipped. */
  function Readable(data: seq<byte>, parse: Parser): seq<Message> {
    Scan([], data, parse)
  }

  lemma {:induction false} ScanAtBreak(line: seq<byte>, a: seq<byte>, nl: byte, b: seq<byte>, parse: Parser)
    requires IsBreak(nl)
    ensures Scan(line, a + [nl] + b, parse) == Scan(line, a, parse) + Scan([], b, parse)
    decreases |a|
  {
    var data := a + [nl] + b;
    if a == [] {
      assert data[0] == nl && data[1..] == b;
    } else {
      assert data[0] == a[0] && data[1..] == a[1..] + [nl] + b;
      if IsBreak(a[0]) {
        ScanAtBreak([], a[1..], nl, b, parse);
      } else {
        ScanAtBreak(line + [a[0]], a[1..], nl, b, parse);
      }
    }
  }

  /** No line of `data` crosses position `n`. */
  predicate LineBoundary(data: seq<byte>, n: nat) {
    n == 0 || n >= |data| || IsBreak(data[n - 1]) || IsBreak(data[n])
  }

  lemma ReadableSplit(data: seq<byte>, n: nat, parse: Parser)
    requires n <= |data| && LineBoundary(data, n) && parse([]) == None
    ensures Readable(data, parse) == Readable(data[..n], parse) + Readable(data[n..], parse)
  {
    if n == 0 || n == |data| {
      assert Scan([], [], parse) == [];
      assert n == 0 ==> data[n..] == data;
      assert n == |data| ==> data[..n] == data;
    } else if IsBreak(data[n - 1]) {
      assert data == data[..n - 1] + [data[n - 1]] + data[n..];
      ScanAtBreak([], data[..n - 1], data[n - 1], data[n..], parse);
      assert data[..n] == data[..n - 1] + [data[n - 1]] + [];
      ScanAtBreak([], data[..n - 1], data[n - 1], [], parse);
    } else {
      assert data == data[..n] + [data[n]] + data[n + 1..];
      ScanAtBreak([], data[..n], data[n], data[n + 1..], parse);
      assert data[n..] == [data[n]] + data[n + 1..];
    }
  }

  // ---- appending ----

  /** What `append_lines` is about to write behind `file`. */
  function AppendData(file: seq<byte>, data: seq<byte>): seq<byte> {
    if data == [] then [] else (if file != [] && file[|file| - 1] != LF then [LF] else []) + data
  }

  /** The file after `append_lines` of which only the first `written` bytes arrived. */
  function Torn(file: seq<byte>, data: seq<byte>, written: nat): seq<byte> {
    var all := AppendData(file, data);
    file + if written < |all| then all[..written] else all
  }

  /** The write was complete, or stopped between two characters. */
  predicate CutsCleanly(file: seq<byte>, data: seq<byte>, written: nat) {
    var all := AppendData(file, data);
    written < |all| ==> !Inner(all[written])
  }

  lemma AppendDataDecodes(file: seq<byte>, data: seq<byte>)
    requires Decodable(data)
    ensures Decodable(AppendData(file, data))
  {
    assert [LF][1..] == [] && [] + data == data;
    DecodableSplit([LF], data);
  }

  /** A torn append leaves the file decodable exactly if it was and the write did not stop inside a character. */
  lemma TornDecodes(file: seq<byte>, data: seq<byte>, written: nat)
    requires Decodable(data)
    ensures Decodable(Torn(file, data, written)) <==> Decodable(file) && CutsCleanly(file, data, written)
  {
    var all := AppendData(file, data);
    AppendDataDecodes(file, data);
    if written >= |all| {
      DecodableJoin(file, all);
    } else {
      DecodableCut(all, written);
      if Decodable(file) {
        DecodableSplit(file, all[..written]);
      } else if Decodable(file + all[..written]) {
        FrontDecodes(file, all, written);
      }
    }
  }

  /** However an append is torn, it starts at a line boundary and keeps every earlier one. */
  lemma AppendKeepsBoundaries(file: seq<byte>, data: seq<byte>, written: nat, n: nat)
    requires n <= |file| && LineBoundary(file, n)
    ensures LineBoundary(Torn(file, data, written), n) && file <= Torn(file, data, written)
  {
  }

  // ---- tallies ----

  datatype Count = Count(count: nat, lastId: string)

  function CountOf(messages: seq<Message>): Count {
    if messages == [] then Count(0, "") else Count(|messages|, messages[|messages| - 1].id)
  }

  function AddCounts(a: Count, messages: seq<Message>): Count {
    if messages == [] then a else Count(a.count + |messages|, messages[|messages| - 1].id)
  }

  datatype Tally = Tally(inode: nat, size: nat, edge: seq<byte>, known: Count)

  datatype File = File(inode: nat, data: seq<byte>)

  /** What counting from scratch gives. */
  datatype Counted = Missing | Undecodable | Counted(count: Count)

  function Recount(file: Option<File>, parse: Parser): Counted {
    match file
    case None => Missing
    case Some(f) => if Decodable(f.data) then Counted(CountOf(Readable(f.data, parse))) else Undecodable
  }

  /** A recount is the number of readable messages and the id of the last one. */
  lemma RecountIs(file: Option<File>, parse: Parser)
    ensures Recount(file, parse).Counted? <==> file.Some? && Decodable(file.value.data)
    ensures Recount(file, parse).Counted? ==>
              var messages := Readable(file.value.data, parse);
              Recount(file, parse).count == Count(|messages|, if messages == [] then "" else messages[|messages| - 1].id)
    ensures Recount(file, parse).Missing? <==> file.None?
  {
    hide Decodable, Readable;
  }

  function EdgeOf(data: seq<byte>): (edge: seq<byte>)
    ensures |edge| <= EDGE_BYTES
  {
    if |data| <= EDGE_BYTES then data else data[|data| - EDGE_BYTES..]
  }

  /** A tally says the truth about a front stretch of this data that ends at a line boundary. */
  ghost predicate TallyHolds(tally: Tally, data: seq<byte>, parse: Parser) {
    && tally.size <= |data| && LineBoundary(data, tally.size) && Decodable(data[..tally.size])
    && tally.edge == EdgeOf(data[..tally.size]) && tally.known == CountOf(Readable(data[..tally.size], parse))
  }

  lemma TallyAtEnd(data: seq<byte>, parse: Parser, inode: nat)
    requires Decodable(data)
    ensures TallyHolds(Tally(inode, |data|, EdgeOf(data), CountOf(Readable(data, parse))), data, parse)
  {
    assert data[..|data|] == data;
  }

  predicate EdgeMatches(tally: Tally, data: seq<byte>) {
    && tally.size <= |data| && |tally.edge| <= tally.size
    && data[tally.size - |tally.edge|..tally.size] == tally.edge
  }

  /**
   A recreated file may get the old inode back. Of a short tallied file the edge recognizes the whole content:
   the tally still holds exactly if no line of the new file crosses its end. Of a long one it compares the last
   bytes only, and any new front goes unnoticed.
  */
  lemma EdgeRecognizes(tally: Tally, before: seq<byte>, data: seq<byte>, parse: Parser)
    requires TallyHolds(tally, before, parse)
    ensures tally.size <= EDGE_BYTES && EdgeMatches(tally, data) ==>
              data[..tally.size] == before[..tally.size] && (TallyHolds(tally, data, parse) <==> LineBoundary(data, tally.size))
    ensures forall front: seq<byte> | tally.size > EDGE_BYTES && |front| == tally.size - EDGE_BYTES ::
              EdgeMatches(tally, front + tally.edge)
  {
    if tally.size <= EDGE_BYTES && EdgeMatches(tally, data) {
      assert tally.edge == before[..tally.size];
      assert data[..tally.size] == data[0..tally.size];
    }
    forall front: seq<byte> | tally.size > EDGE_BYTES && |front| == tally.size - EDGE_BYTES
      ensures EdgeMatches(tally, front + tally.edge)
    {
      assert |tally.edge| == EDGE_BYTES;
      assert (front + tally.edge)[tally.size - EDGE_BYTES..tally.size] == tally.edge;
    }
  }

  lemma TallyKept(tally: Tally, file: seq<byte>, data: seq<byte>, written: nat, parse: Parser)
    requires TallyHolds(tally, file, parse)
    ensures TallyHolds(tally, Torn(file, data, written), parse)
  {
    AppendKeepsBoundaries(file, data, written, tally.size);
    assert Torn(file, data, written)[..tally.size] == file[..tally.size];
  }

  /** Counting on from a tally gives the full recount. */
  lemma ResumedIsRecount(tally: Tally, data: seq<byte>, parse: Parser)
    requires TallyHolds(tally, data, parse) && parse([]) == None
    ensures Decodable(data[tally.size..]) <==> Decodable(data)
    ensures AddCounts(tally.known, Readable(data[tally.size..], parse)) == CountOf(Readable(data, parse))
  {
    ReadableSplit(data, tally.size, parse);
    assert data == data[..tally.size] + data[tally.size..];
    DecodableSplit(data[..tally.size], data[tally.size..]);
  }

  // ---- writing whole messages ----

  predicate NoBreaks(s: seq<byte>) {
    forall i | 0 <= i < |s| :: !IsBreak(s[i])
  }

  /** JSON lines: one line each, decodable, and read back as what was written; a blank line is no message. */
  ghost predicate Codec(parse: Parser, encode: Encoder) {
    && parse([]) == None
    && forall m :: NoBreaks(encode(m)) && Decodable(encode(m)) && parse(encode(m)) == Some(m)
  }

  function Kept(messages: seq<Message>): seq<Message> {
    if messages == [] then []
    else Kept(messages[..|messages| - 1]) + if messages[|messages| - 1].ephemeral then [] else [messages[|messages| - 1]]
  }

  /** `kept` is exactly the messages that are not ephemeral, in order. */
  ghost predicate Lasting(messages: seq<Message>, kept: seq<Message>) {
    exists ix: seq<nat> :: Selects(messages, ix, kept) && forall i: nat | i < |messages| :: i in ix <==> !messages[i].ephemeral
  }

  lemma {:induction false} KeptAreLasting(messages: seq<Message>)
    ensures Lasting(messages, Kept(messages))
  {
    if messages == [] {
      assert Selects(messages, [], []);
    } else {
      var n := |messages| - 1;
      hide Lasting;
      KeptAreLasting(messages[..n]);
      LastingStep(messages, Kept(messages[..n]));
      assert Kept(messages[..n]) + [] == Kept(messages[..n]);
    }
  }

  lemma {:induction false} NoneDropped(messages: seq<Message>)
    ensures NoneEphemeral(messages) ==> Kept(messages) == messages
  {
    if messages != [] {
      NoneDropped(messages[..|messages| - 1]);
    }
  }

  predicate NoneEphemeral(messages: seq<Message>) {
    forall i | 0 <= i < |messages| :: !messages[i].ephemeral
  }

  lemma LastingStep(messages: seq<Message>, kept: seq<Message>)
    requires messages != [] && Lasting(messages[..|messages| - 1], kept)
    ensures Lasting(messages, if messages[|messages| - 1].ephemeral then kept else kept + [messages[|messages| - 1]])
  {
    var n := |messages| - 1;
    var ix: seq<nat> :| Selects(messages[..n], ix, kept) && forall i: nat | i < n :: i in ix <==> !messages[..n][i].ephemeral;
    LastingAt(messages, ix, kept);
  }

  lemma LastingAt(messages: seq<Message>, ix: seq<nat>, kept: seq<Message>)
    requires messages != [] && Selects(messages[..|messages| - 1], ix, kept)
    requires forall i: nat | i < |messages| - 1 :: i in ix <==> !messages[i].ephemeral
    ensures Lasting(messages, if messages[|messages| - 1].ephemeral then kept else kept + [messages[|messages| - 1]])
  {
    var n := |messages| - 1;
    SelectsLonger(messages, n, ix, kept);
    SelectsMore(messages, ix, kept, n);
    hide Selects;
    if !messages[n].ephemeral {
      assert forall i :: i in ix + [n] <==> i in ix || i == n;
    }
  }

  function Encoded(messages: seq<Message>, encode: Encoder): seq<byte> {
    if messages == [] then [] else Encoded(messages[..|messages| - 1], encode) + encode(messages[|messages| - 1]) + [LF]
  }

  lemma {:induction false} ScanLine(line: seq<byte>, rest: seq<byte>, parse: Parser)
    requires NoBreaks(rest)
    ensures Scan(line, rest, parse) == Emit(line + rest, parse)
    decreases |rest|
  {
    if rest == [] {
      assert line + rest == line;
    } else {
      ScanLine(line + [rest[0]], rest[1..], parse);
      assert line + [rest[0]] + rest[1..] == line + rest;
    }
  }

  lemma OneLine(m: Message, parse: Parser, encode: Encoder)
    requires Codec(parse, encode)
    ensures Readable(encode(m) + [LF], parse) == [m] && Decodable(encode(m) + [LF])
  {
    ScanLine([], encode(m), parse);
    assert [] + encode(m) == encode(m) && encode(m) + [LF] == encode(m) + [LF] + [];
    ScanAtBreak([], encode(m), LF, [], parse);
    DecodableSplit(encode(m), [LF]);
    assert [LF][1..] == [];
  }

  /** Bytes without a line break are one line, and each of the two line breaks ends one. */
  lemma LinesEndAtBreaks(line: seq<byte>, a: seq<byte>, b: seq<byte>, parse: Parser)
    requires parse([]) == None
    ensures (forall i | 0 <= i < |line| :: line[i] != 10 && line[i] != 13) ==>
              Readable(line, parse) == match parse(line) case None => [] case Some(m) => [m]
    ensures forall nl: byte | nl == 10 || nl == 13 :: Readable(a + [nl] + b, parse) == Readable(a, parse) + Readable(b, parse)
  {
    if forall i | 0 <= i < |line| :: line[i] != 10 && line[i] != 13 {
      ScanLine([], line, parse);
      assert [] + line == line;
    }
    forall nl: byte | nl == 10 || nl == 13 ensures Readable(a + [nl] + b, parse) == Readable(a, parse) + Readable(b, parse) {
      ScanAtBreak([], a, nl, b, parse);
    }
  }

  /** What is written out whole is read back whole. */
  lemma {:induction false} EncodedIsReadable(messages: seq<Message>, parse: Parser, encode: Encoder)
    requires Codec(parse, encode)
    ensures Readable(Encoded(messages, encode), parse) == messages && Decodable(Encoded(messages, encode))
    ensures messages != [] ==> Encoded(messages, encode) != [] && Encoded(messages, encode)[|Encoded(messages, encode)| - 1] == LF
  {
    if messages != [] {
      hide Codec, Readable, Decodable;
      var init, last := messages[..|messages| - 1], messages[|messages| - 1];
      var before := Encoded(init, encode);
      EncodedIsReadable(init, parse, encode);
      OneLine(last, parse, encode);
      BlankIsNothing(parse, encode);
      var data := Encoded(messages, encode);
      assert data == before + (encode(last) + [LF]);
      assert data[..|before|] == before && data[|before|..] == encode(last) + [LF];
      ReadableSplit(data, |before|, parse);
      DecodableSplit(before, encode(last) + [LF]);
      assert messages == init + [last];
    } else {
      BlankIsNothing(parse, encode);
    }
  }

  lemma BlankIsNothing(parse: Parser, encode: Encoder)
    ensures Codec(parse, encode) ==> parse([]) == None && Readable([], parse) == [] && Decodable([])
  {
  }

  /**
   A complete append of one message adds just this message, whatever torn line the file ends with, and the
   history can be decoded afterwards exactly if it could be before.
  */
  lemma AppendAddsOne(file: seq<byte>, m: Message, parse: Parser, encode: Encoder, written: nat)
    requires Codec(parse, encode) && written >= |AppendData(file, encode(m) + [LF])|
    ensures var after := Torn(file, encode(m) + [LF], written);
            Readable(after, parse) == Readable(file, parse) + [m] && (Decodable(after) <==> Decodable(file))
  {
    var data := encode(m) + [LF];
    var after := Torn(file, data, written);
    BlankIsNothing(parse, encode);
    OneLine(m, parse, encode);
    TornDecodes(file, data, written);
    hide Codec, Readable, Decodable;
    assert after[..|file|] == file && after[|file|..] == AppendData(file, data);
    ReadableSplit(after, |file|, parse);
    if AppendData(file, data) != data {
      LeadingBreak(data, parse);
    }
  }

  lemma LeadingBreak(data: seq<byte>, parse: Parser)
    requires parse([]) == None
    ensures Readable([LF] + data, parse) == Readable(data, parse) && (Decodable([LF] + data) <==> Decodable(data))
  {
    assert ([LF] + data)[1..] == data;
  }

  // ---- any sequence of torn appends ----

  datatype Append = Append(data: seq<byte>, written: nat)

  function After(file: seq<byte>, appends: seq<Append>): seq<byte> {
    if appends == [] then file
    else Torn(After(file, appends[..|appends| - 1]), appends[|appends| - 1].data, appends[|appends| - 1].written)
  }

  /** Append number `i` was complete, or stopped between two characters. */
  predicate CleanAt(file: seq<byte>, appends: seq<Append>, i: nat)
    requires i < |appends|
  {
    CutsCleanly(After(file, appends[..i]), appends[i].data, appends[i].written)
  }

  predicate AllDecodable(appends: seq<Append>) {
    forall i | 0 <= i < |appends| :: Decodable(appends[i].data)
  }

  /** No append stopped inside a character. */
  predicate AllClean(file: seq<byte>, appends: seq<Append>) {
    forall i: nat | i < |appends| :: CleanAt(file, appends, i)
  }

  lemma CleanInPrefix(file: seq<byte>, appends: seq<Append>, n: nat, i: nat)
    requires i < n <= |appends|
    ensures CleanAt(file, appends[..n], i) <==> CleanAt(file, appends, i)
  {
    hide CutsCleanly, After;
    assert appends[..n][..i] == appends[..i];
  }

  lemma CleanBefore(file: seq<byte>, appends: seq<Append>)
    requires appends != []
    ensures var n := |appends| - 1;
            AllClean(file, appends) <==> AllClean(file, appends[..n]) && CleanAt(file, appends, n)
  {
    hide CleanAt;
    var n := |appends| - 1;
    forall i: nat | i < n ensures CleanAt(file, appends[..n], i) <==> CleanAt(file, appends, i) {
      CleanInPrefix(file, appends, n, i);
    }
  }

  /** A history can be decoded exactly if it could be in the beginning and no append ever stopped inside a character. */
  lemma {:induction false} HistoryDecodes(file: seq<byte>, appends: seq<Append>)
    requires AllDecodable(appends)
    ensures Decodable(After(file, appends)) <==> Decodable(file) && AllClean(file, appends)
    decreases |appends|
  {
    if appends == [] {
      assert After(file, []) == file;
    } else {
      hide Decodable, CutsCleanly, Torn, AllClean;
      var n := |appends| - 1;
      assert AllDecodable(appends[..n]) && Decodable(appends[n].data);
      CleanBefore(file, appends);
      HistoryDecodes(file, appends[..n]);
      TornDecodes(After(file, appends[..n]), appends[n].data, appends[n].written);
    }
  }

  /**
   A line of three characters, the second of them three bytes long: if its writer dies after two bytes, the
   history cannot be decoded any more, whatever is appended afterwards.
  */
  lemma TornCharacterIsForever(later: seq<Append>)
    requires AllDecodable(later)
    ensures var line := [0x22, 0xE2, 0x82, 0xAC, 0x22, LF];
            Decodable(line) && !Decodable(After([], [Append(line, 2)] + later))
  {
    var line := [0x22, 0xE2, 0x82, 0xAC, 0x22, LF];
    var tail: seq<byte> := [0x22, LF];
    assert tail[1..] == [LF] && [LF][1..] == [] && Decodable(tail);
    assert line[1..][3..] == tail && CharLength(line[1..]) == 3 && Decodable(line[1..]);
    assert CharLength(line) == 1 && Decodable(line);
    FirstCut(line, later);
  }

  lemma FirstCut(line: seq<byte>, later: seq<Append>)
    requires Decodable(line) && |line| > 2 && Inner(line[2]) && AllDecodable(later)
    ensures !Decodable(After([], [Append(line, 2)] + later))
  {
    var all := [Append(line, 2)] + later;
    assert all[..0] == [] && [] + line == line;
    assert !CleanAt([], all, 0);
    hide Decodable, CleanAt, Inner, After;
    assert forall i | 0 < i < |all| :: all[i] == later[i - 1];
    HistoryDecodes([], all);
  }

  lemma {:induction false} TallySurvives(tally: Tally, file: seq<byte>, appends: seq<Append>, parse: Parser)
    requires TallyHolds(tally, file, parse)
    ensures TallyHolds(tally, After(file, appends), parse)
  {
    if appends != [] {
      var last := appends[|appends| - 1];
      TallySurvives(tally, file, appends[..|appends| - 1], parse);
      TallyKept(tally, After(file, appends[..|appends| - 1]), last.data, last.written, parse);
    }
  }

  /**
   Whatever file was tallied and however the appends after it were torn: counting on from the old size gives
   the full recount, and decoding fails in the same cases.
  */
  lemma ResumedTallyIsExact(file: seq<byte>, appends: seq<Append>, parse: Parser)
    requires Decodable(file) && parse([]) == None
    ensures var data := After(file, appends);
            && file <= data && (Decodable(data[|file|..]) <==> Decodable(data))
            && AddCounts(CountOf(Readable(file, parse)), Readable(data[|file|..], parse)) == CountOf(Readable(data, parse))
  {
    var tally := Tally(0, |file|, EdgeOf(file), CountOf(Readable(file, parse)));
    TallyAtEnd(file, parse, 0);
    TallySurvives(tally, file, appends, parse);
    ResumedIsRecount(tally, After(file, appends), parse);
    OnlyGrows(file, appends);
  }

  lemma {:induction false} OnlyGrows(file: seq<byte>, appends: seq<Append>)
    ensures file <= After(file, appends)
  {
    if appends != [] {
      OnlyGrows(file, appends[..|appends| - 1]);
    }
  }

  // ---- the store ----

  datatype Cache = Cache(messages: seq<Message>, stamp: nat)

  datatype Loaded = Loaded(messages: seq<Message>) | LoadFailed
  datatype Replaced = Replaced | Changed | WriteFailed

  /**
   One conversation file with the tally the processes share and the caches of the store instances. A replaced
   file has an inode that was never used before, and the stamp differs after every write; 0 is the stamp of
   no file.
  */
  class ConversationFile {
    const parse: Parser
    const encode: Encoder
    var file: Option<File>
    var stamp: nat
    var nextInode: nat
    var nextStamp: nat
    var tally: Option<Tally>
    var caches: map<nat, Cache>

    ghost predicate Valid()
      reads this
    {
      && Codec(parse, encode) && TallyOk() && FreshOk()
      && forall store | store in caches && caches[store].stamp == stamp :: CacheOk(store)
    }

    /** A cache whose stamp matches holds what the file holds. */
    ghost predicate CacheOk(store: nat)
      requires store in caches
      reads this
    {
      match file
      case None => caches[store].messages == []
      case Some(f) => Decodable(f.data) && caches[store].messages == Readable(f.data, parse)
    }

    ghost predicate TallyOk()
      reads this
    {
      tally.Some? && file.Some? && tally.value.inode == file.value.inode ==> TallyHolds(tally.value, file.value.data, parse)
    }

    ghost predicate FreshOk()
      reads this
    {
      && (stamp == 0 <==> file.None?) && stamp < nextStamp && (forall store | store in caches :: caches[store].stamp < nextStamp)
      && (file.Some? ==> file.value.inode < nextInode) && (tally.Some? ==> tally.value.inode < nextInode)
    }

    constructor (parse: Parser, encode: Encoder, file: Option<File>)
      requires Codec(parse, encode)
      ensures Valid() && this.parse == parse && this.encode == encode && this.file == file && caches == map[] && tally == None
    {
      this.parse, this.encode, this.file := parse, encode, file;
      stamp := if file.Some? then 1 else 0;
      nextInode := match file case None => 0 case Some(f) => f.inode + 1;
      nextStamp, tally, caches := 2, None, map[];
    }

    /** `_tally_unlocked`: only what was appended is counted, and the result is that of a full recount. */
    method TallyUp() returns (counted: Counted)
      requires Valid()
      modifies this`tally
      ensures Valid() && counted == Recount(file, parse)
    {
      if file.None? {
        tally := None;
        return Missing;
      }
      var f := file.value;
      var start, known := 0, Count(0, "");
      if tally.Some? && tally.value.inode == f.inode && tally.value.size <= |f.data| {
        if EdgeMatches(tally.value, f.data) {
          start, known := tally.value.size, tally.value.known;
          ResumedIsRecount(tally.value, f.data, parse);
        }
      }
      assert start == 0 ==> f.data[start..] == f.data;
      var rest := f.data[start..];
      if !Decodable(rest) {
        return Undecodable;
      }
      known := AddCounts(known, Readable(rest, parse));
      tally := Some(Tally(f.inode, |f.data|, EdgeOf(f.data), known));
      TallyAtEnd(f.data, parse, f.inode);
      return Counted(known);
    }

    /** The table of tallies is bounded: an entry may be forgotten at any time. */
    method EvictTally()
      requires Valid()
      modifies this`tally
      ensures Valid() && tally == None
    {
      tally := None;
    }

    method Invalidate(store: nat)
      requires Valid()
      modifies this`caches
      ensures Valid() && caches == old(caches) - {store}
    {
      caches := caches - {store};
    }

    /** What the file holds is kept in memory for this instance. */
    method Remember(store: nat, messages: seq<Message>)
      requires Valid() && match file case None => messages == [] case Some(f) => Decodable(f.data) && messages == Readable(f.data, parse)
      modifies this`caches
      ensures Valid() && caches == old(caches)[store := Cache(messages, stamp)]
    {
      hide Codec, TallyHolds, Readable, Decodable;
      caches := caches[store := Cache(messages, stamp)];
    }

    /** `append_lines`, of which only the first `written` bytes reach the file before the writer dies. */
    method AppendLines(data: seq<byte>, written: nat)
      requires Valid()
      modifies this`file, this`stamp, this`nextStamp, this`nextInode
      ensures Valid() && file.Some?
      ensures file.value.data == Torn(match old(file) case None => [] case Some(f) => f.data, data, written)
      ensures old(file).Some? ==> file.value.inode == old(file).value.inode
      ensures stamp >= old(nextStamp)
    {
      hide Codec, TallyHolds, Readable, Decodable;
      var before := match file case None => [] case Some(f) => f.data;
      if file.None? {
        file := Some(File(nextInode, []));
        nextInode := nextInode + 1;
      }
      if tally.Some? && tally.value.inode == file.value.inode {
        TallyKept(tally.value, before, data, written, parse);
      }
      file := Some(file.value.(data := Torn(before, data, written)));
      stamp, nextStamp := nextStamp, nextStamp + 1;
    }

    /** `load` */
    method Load(store: nat) returns (loaded: Loaded)
      requires Valid()
      modifies this`caches
      ensures Valid()
      ensures loaded == match file
                        case None => Loaded([])
                        case Some(f) => if Decodable(f.data) then Loaded(Readable(f.data, parse)) else LoadFailed
      ensures loaded.Loaded? ==> caches == old(caches)[store := Cache(loaded.messages, stamp)]
      ensures loaded.LoadFailed? ==> caches == old(caches)
    {
      hide Codec, TallyHolds, Readable, Decodable;
      if store in caches && caches[store].stamp == stamp {
        assert CacheOk(store);
        return Loaded(caches[store].messages);
      }
      var messages: seq<Message> := [];
      if file.Some? {
        if !Decodable(file.value.data) {
          return LoadFailed;
        }
        messages := Readable(file.value.data, parse);
      }
      Remember(store, messages);
      return Loaded(messages);
    }

    /** `append` of one message; a write that dies midway raises and leaves no cache behind. */
    method Append(store: nat, m: Message, written: nat) returns (ok: bool)
      requires Valid()
      modifies this
      ensures Valid()
      ensures m.ephemeral ==> ok && file == old(file) && caches == old(caches)
      ensures !m.ephemeral ==> stamp >= old(nextStamp)
      ensures caches.Keys <= old(caches).Keys && forall other | other in caches && other != store :: caches[other] == old(caches)[other]
      ensures old(caches).Keys - {store} <= caches.Keys
      ensures !m.ephemeral ==>
                var before := match old(file) case None => [] case Some(f) => f.data;
                var data := encode(m) + [LF];
                && file.Some? && file.value.data == Torn(before, data, written)
                && (ok <==> written >= |AppendData(before, data)|)
                && (ok ==> Readable(file.value.data, parse) == Readable(before, parse) + [m])
                && (Decodable(file.value.data) <==> Decodable(before) && CutsCleanly(before, data, written))
                && (ok && store in old(caches) && old(caches)[store].stamp == old(stamp) ==>
                      store in caches && caches[store] == Cache(old(caches)[store].messages + [m], stamp))
                && (!ok ==> store !in caches)
    {
      if m.ephemeral {
        return true;
      }
      ghost var before := match file case None => [] case Some(f) => f.data;
      var data := encode(m) + [LF];
      ghost var cached := store in caches && caches[store].stamp == stamp;
      if cached {
        assert CacheOk(store);
        BlankIsNothing(parse, encode);
      }
      OneLine(m, parse, encode);
      TornDecodes(before, data, written);
      if written >= |AppendData(before, data)| {
        AppendAddsOne(before, m, parse, encode, written);
      }
      hide Codec, TallyHolds, Readable, Decodable, Torn, AppendData, CacheOk, TallyOk, FreshOk;
      if !(store in caches) || caches[store].stamp != stamp {
        Invalidate(store);
      }
      ok := written >= |AppendData(match file case None => [] case Some(f) => f.data, data)|;
      AppendLines(data, written);
      if !ok {
        Invalidate(store);
      } else if store in caches {
        Remember(store, caches[store].messages + [m]);
      }
    }

    /**
     `replace_all`: an instance that loaded the history and did not see a later write gets an error; the file
     is replaced only by an instance that has seen everything in it, or by one that never looked.
    */
    method ReplaceAll(store: nat, messages: seq<Message>, fails: bool) returns (result: Replaced)
      requires Valid()
      modifies this
      ensures Valid()
      ensures result == if store in old(caches) && old(caches)[store].stamp != old(stamp) then Changed
                        else if fails then WriteFailed else Replaced
      ensures result != Replaced ==> file == old(file) && stamp == old(stamp)
      ensures result == Replaced ==> file.Some? && Decodable(file.value.data) && Readable(file.value.data, parse) == Kept(messages)
      ensures result == Replaced ==> Lasting(messages, Readable(file.value.data, parse))
      ensures result == Replaced && NoneEphemeral(messages) ==> Readable(file.value.data, parse) == messages
      ensures result == Replaced && store in old(caches) ==>
                match old(file)
                case None => old(caches)[store].messages == []
                case Some(f) => Decodable(f.data) && old(caches)[store].messages == Readable(f.data, parse)
      ensures store !in caches
    {
      if store in caches && caches[store].stamp != stamp {
        Invalidate(store);
        return Changed;
      }
      assert store in caches ==> CacheOk(store);
      if fails {
        Invalidate(store);
        return WriteFailed;
      }
      var written := Kept(messages);
      KeptAreLasting(messages);
      NoneDropped(messages);
      var data := Encoded(written, encode);
      EncodedIsReadable(written, parse, encode);
      TallyAtEnd(data, parse, nextInode);
      hide Codec, TallyHolds, Readable, Decodable, Lasting, NoneEphemeral, Kept;
      file := Some(File(nextInode, data));
      tally := Some(Tally(nextInode, |data|, EdgeOf(data), CountOf(written)));
      nextInode := nextInode + 1;
      stamp, nextStamp := nextStamp, nextStamp + 1;
      Invalidate(store);
      return Replaced;
    }

    /** The bytes of a copy go in place of a missing or empty file, or behind one that holds no readable message. */
    method Install(store: nat, staged: seq<byte>, count: Count)
      requires Valid() && Decodable(staged) && count == CountOf(Readable(staged, parse)) && staged != []
      requires file.Some? ==> Decodable(file.value.data) && Readable(file.value.data, parse) == []
      modifies this
      ensures Valid() && file.Some? && store !in caches
      ensures Decodable(file.value.data) && Readable(file.value.data, parse) == Readable(staged, parse)
    {
      if file.Some? && file.value.data != [] {
        var before := file.value.data;
        AppendKeepsReadable(before, staged, parse, encode);
        hide Codec, TallyHolds, Readable, Decodable, Torn;
        AppendLines(staged, |staged| + 1);
      } else {
        TallyAtEnd(staged, parse, nextInode);
        hide Codec, TallyHolds, Readable, Decodable;
        file := Some(File(nextInode, staged));
        tally := Some(Tally(nextInode, |staged|, EdgeOf(staged), count));
        nextInode := nextInode + 1;
        stamp, nextStamp := nextStamp, nextStamp + 1;
      }
      Invalidate(store);
    }

    /** `copy_history` into this file: afterwards it starts with the source's messages, unless it already had some. */
    method CopyHistory(store: nat, source: ConversationFile) returns (copied: Option<(Count, nat)>)
      requires Valid() && source.Valid() && source != this && source.parse == parse
      modifies this, source`tally
      ensures Valid() && source.Valid() && source.file == old(source.file)
      ensures copied.None? <==> Recount(old(source.file), parse).Undecodable? || Recount(old(file), parse).Undecodable?
      ensures copied.Some? ==>
                var had := match old(file) case None => [] case Some(f) => Readable(f.data, parse);
                var has := match old(source.file) case None => [] case Some(f) => Readable(f.data, parse);
                if had != [] then copied.value == (CountOf(had), 0) && file == old(file)
                else if has == [] then copied.value == (CountOf([]), 0) && file == old(file)
                else copied.value == (CountOf(has), |has|) && file.Some? && Decodable(file.value.data) && Readable(file.value.data, parse) == has
    {
      var tallied := source.TallyUp();
      if tallied.Undecodable? {
        return None;
      }
      if file.Some? {
        if !Decodable(file.value.data) {
          return None;
        }
        if Readable(file.value.data, parse) != [] {
          var existing := TallyUp();
          return Some((existing.count, 0));
        }
      }
      if tallied.Missing? || tallied.count.count == 0 {
        return Some((Count(0, ""), 0));
      }
      BlankIsNothing(parse, encode);
      Install(store, source.file.value.data, tallied.count);
      return Some((tallied.count, tallied.count.count));
    }
  }

  lemma AppendKeepsReadable(file: seq<byte>, data: seq<byte>, parse: Parser, encode: Encoder)
    requires Codec(parse, encode) && Decodable(file) && Decodable(data) && data != []
    ensures var after := Torn(file, data, |data| + 1);
            Readable(after, parse) == Readable(file, parse) + Readable(data, parse) && Decodable(after)
  {
    var after := Torn(file, data, |data| + 1);
    BlankIsNothing(parse, encode);
    hide Codec, Readable, Decodable;
    assert after[..|file|] == file && after[|file|..] == AppendData(file, data);
    ReadableSplit(after, |file|, parse);
    DecodableSplit(file, AppendData(file, data));
    if AppendData(file, data) != data {
      LeadingBreak(data, parse);
    }
  }

  /**
   An instance that has loaded the history, now or before another one wrote, is refused and the other one's
   message stays. Only an instance that could never load it, because it cannot be decoded, overwrites it.
  */
  method LateReplaceIsRefused(conversation: ConversationFile, a: nat, b: nat, m: Message, messages: seq<Message>)
    returns (ok: bool, result: Replaced)
    requires conversation.Valid() && a != b && !m.ephemeral
    modifies conversation
    ensures conversation.Valid() && conversation.file.Some? && ok
    ensures result == Changed <==>
            a in old(conversation.caches) || old(conversation.file).None? || Decodable(old(conversation.file).value.data)
    ensures var before := match old(conversation.file) case None => [] case Some(f) => f.data;
            Readable(conversation.file.value.data, conversation.parse) ==
            if result == Changed then Readable(before, conversation.parse) + [m] else Kept(messages)
  {
    hide Codec, TallyHolds, Readable, Decodable, Torn, Encoded, Kept, CutsCleanly, AppendData;
    var loaded := conversation.Load(a);
    if loaded.LoadFailed? && a in conversation.caches {
      assert conversation.caches[a].stamp == conversation.stamp ==> conversation.CacheOk(a);
    }
    var before := match conversation.file case None => [] case Some(f) => f.data;
    var written := |before| + |conversation.encode(m)| + 2;
    AppendDataLength(before, conversation.encode(m) + [LF]);
    ok := conversation.Append(b, m, written);
    result := conversation.ReplaceAll(a, messages, false);
  }

  lemma AppendDataLength(file: seq<byte>, data: seq<byte>)
    ensures |AppendData(file, data)| <= |data| + 1
  {
  }

  /** An instance that never looked overwrites whatever another one wrote. */
  method BlindReplaceDiscards(parse: Parser, encode: Encoder, m: Message) returns (conversation: ConversationFile)
    requires Codec(parse, encode) && !m.ephemeral
    ensures conversation.file.Some? && Readable(conversation.file.value.data, parse) == []
  {
    conversation := new ConversationFile(parse, encode, None);
    var ok := conversation.Append(0, m, |encode(m)| + 2);
    BlankIsNothing(parse, encode);
    assert Readable(conversation.file.value.data, parse) == [m];
    hide Codec, TallyHolds, Readable, Decodable, Torn, Encoded;
    var _ := conversation.ReplaceAll(1, [], false);
  }

}
