/**
 Paged reading of an archived context (engine/context_archive.py): a page holds whole records, or a chunk of
 one record that is too long, and says where the next page begins.
*/
module Archive {
  import opened Common

  const MAX_PAGE_CHARS := 20_000
  const MAX_RECORD_CHARS := 12_000
  const CHUNK_CHARS := 6_000
  const MAX_RESULTS := 50
  const MAX_OFFSET := 1_000_000
  const MAX_CHAR_OFFSET := 0x7fff_ffff_ffff_ffff

  // ---- the JSON text of an item ----

  /** A string inside JSON text, section 7 of RFC 8259. */
  function Escape(c: char): (e: string)
    ensures |e| == if c == '\"' || c == '\\' then 2 else if c >= ' ' then 1 else if c in "\n\r\t" || c as int in {8, 12} then 2 else 6
  {
    if c == '\"' then "\\\""
    else if c == '\\' then "\\\\"
    else if c >= ' ' then [c]
    else if c == '\n' then "\\n"
    else if c == '\r' then "\\r"
    else if c == '\t' then "\\t"
    else if c as int == 8 then "\\b"
    else if c as int == 12 then "\\f"
    else "\\u00" + [HexDigit(c as int / 16)] + [HexDigit(c as int % 16)]
  }

  function HexDigit(n: int): char
    requires 0 <= n < 16
  {
    "0123456789abcdef"[n]
  }

  function Escaped(s: string): string {
    if s == "" then "" else Escaped(s[..|s| - 1]) + Escape(s[|s| - 1])
  }

  function Digits(n: nat): (d: string)
    ensures d != ""
  {
    (if n < 10 then "" else Digits(n / 10)) + ["0123456789"[n % 10]]
  }

  /** Stored JSON has no raw control characters. */
  predicate JsonText(raw: string) {
    forall i | 0 <= i < |raw| :: raw[i] >= ' '
  }

  /** A whole record, or a chunk of one that begins at `begin`. */
  datatype Item =
    | Whole(offset: nat, text: string)
    | Chunk(offset: nat, begin: nat, text: string, total: nat)

  /** `_json(item)`; a stored record is canonical, so reading it and writing it again gives the same text. */
  function ItemText(item: Item): string {
    match item
    case Whole(offset, text) => "{\"message\":" + text + ",\"offset\":" + Digits(offset) + "}"
    case Chunk(offset, begin, text, total) =>
      "{\"char_offset\":" + Digits(begin) + ",\"data_json_chunk\":\"" + Escaped(text) + "\",\"offset\":" + Digits(offset)
      + ",\"total_chars\":" + Digits(total) + "}"
  }

  lemma {:induction false} EscapedAtMostDoubles(s: string)
    requires JsonText(s)
    ensures |Escaped(s)| <= 2 * |s|
  {
    if s != "" {
      EscapedAtMostDoubles(s[..|s| - 1]);
    }
  }

  lemma Enclosed(a: string, b: string, c: string)
    ensures (a + b + c)[|a|..|a| + |b|] == b && |a + b + c| == |a| + |b| + |c|
  {
  }

  /** A whole item is its JSON between two names and the decimal offset. */
  lemma WholeTextHolds(offset: nat, text: string)
    ensures var s := ItemText(Whole(offset, text));
            && |s| == 22 + |text| + |Digits(offset)| && s[11..11 + |text|] == text
            && s[21 + |text|..21 + |text| + |Digits(offset)|] == Digits(offset)
  {
    hide Digits;
    var a, b, c := "{\"message\":", ",\"offset\":", "}";
    assert |a| == 11 && |b| == 10 && |c| == 1;
    assert ItemText(Whole(offset, text)) == a + text + (b + Digits(offset) + c);
    Enclosed(a, text, b + Digits(offset) + c);
    Enclosed(a + text + b, Digits(offset), c);
    assert a + text + (b + Digits(offset) + c) == a + text + b + Digits(offset) + c;
    hide ItemText;
  }

  /** A chunk is its escaped text between four names and three decimal numbers. */
  lemma ChunkTextHolds(offset: nat, begin: nat, text: string, total: nat)
    ensures var s := ItemText(Chunk(offset, begin, text, total));
            && |s| == 62 + |Digits(begin)| + |Escaped(text)| + |Digits(offset)| + |Digits(total)|
            && s[35 + |Digits(begin)|..35 + |Digits(begin)| + |Escaped(text)|] == Escaped(text)
  {
    hide Digits, Escaped;
    var a, b := "{\"char_offset\":", ",\"data_json_chunk\":\"";
    var c, d, e := "\",\"offset\":", ",\"total_chars\":", "}";
    assert |a| == 15 && |b| == 20 && |c| == 11 && |d| == 15 && |e| == 1;
    var rest := c + Digits(offset) + d + Digits(total) + e;
    assert ItemText(Chunk(offset, begin, text, total)) == a + Digits(begin) + b + Escaped(text) + rest;
    Enclosed(a + Digits(begin) + b, Escaped(text), rest);
    hide ItemText;
  }

  /** Reading an escape sequence back: what the string at the head of `s` stands for, and what follows it. */
  function Unescape(s: string): (r: Option<(char, string)>)
    ensures r.Some? ==> |r.value.1| < |s|
  {
    if s == "" || s[0] == '\"' then None
    else if s[0] != '\\' then Some((s[0], s[1..]))
    else if |s| < 2 then None
    else if s[1] == '\"' || s[1] == '\\' then Some((s[1], s[2..]))
    else if s[1] == 'n' then Some((10 as char, s[2..]))
    else if s[1] == 'r' then Some((13 as char, s[2..]))
    else if s[1] == 't' then Some((9 as char, s[2..]))
    else if s[1] == 'b' then Some((8 as char, s[2..]))
    else if s[1] == 'f' then Some((12 as char, s[2..]))
    else if s[1] == 'u' && |s| >= 6 && s[2..4] == "00" && s[4] in "01" then
      Some(((16 * (s[4] as int - '0' as int) + HexValue(s[5])) as char, s[6..]))
    else None
  }

  function HexValue(c: char): (n: nat)
    ensures n < 16
  {
    if '0' <= c <= '9' then c as int - '0' as int else if 'a' <= c <= 'f' then c as int - 'a' as int + 10 else 0
  }

  /** Every character can be read back from what it was escaped to, so its text and its length are right. */
  lemma EscapeReadsBack(c: char, rest: string)
    ensures Unescape(Escape(c) + rest) == Some((c, rest))
  {
    var s := Escape(c) + rest;
    if c < ' ' && c != '\n' && c != '\r' && c != '\t' && c as int != 8 && c as int != 12 {
      HexReadsBack(c as int % 16);
      assert c as int / 16 == 0 || c as int / 16 == 1;
      assert s[6..] == rest && s[2..4] == "00";
    } else if |Escape(c)| == 2 {
      assert s[2..] == rest;
    } else {
      assert s[1..] == rest;
    }
  }

  lemma HexReadsBack(n: int)
    requires 0 <= n < 16
    ensures HexValue(HexDigit(n)) == n
  {
  }

  /** The whole text, read back character by character. */
  function Unescaped(s: string): Option<string>
    decreases |s|
  {
    if s == "" then Some("")
    else match Unescape(s)
      case None => None
      case Some((c, rest)) => match Unescaped(rest) case None => None case Some(text) => Some([c] + text)
  }

  lemma {:induction false} EscapedFirst(c: char, s: string)
    ensures Escaped([c] + s) == Escape(c) + Escaped(s)
  {
    hide Escape;
    if s == "" {
      assert [c] + s == [c] && [c][..0] == "";
    } else {
      EscapedFirst(c, s[..|s| - 1]);
      assert ([c] + s)[..|s|] == [c] + s[..|s| - 1];
    }
  }

  lemma {:induction false} EscapedReadsBack(s: string)
    ensures Unescaped(Escaped(s)) == Some(s)
  {
    hide Escape, Unescape;
    if s != "" {
      assert s == [s[0]] + s[1..];
      EscapedFirst(s[0], s[1..]);
      EscapeReadsBack(s[0], Escaped(s[1..]));
      EscapedReadsBack(s[1..]);
    }
  }

  /** Decimal digits stand for their number, without a leading zero. */
  function Value(d: string): int {
    if d == "" then 0 else 10 * Value(d[..|d| - 1]) + (d[|d| - 1] as int - '0' as int)
  }

  lemma {:induction false} DigitsReadBack(n: nat)
    ensures Value(Digits(n)) == n && (n > 0 ==> Digits(n)[0] != '0') && (forall k | 0 <= k < |Digits(n)| :: '0' <= Digits(n)[k] <= '9')
  {
    if n >= 10 {
      DigitsReadBack(n / 10);
    }
    var d := Digits(n);
    assert d[..|d| - 1] == if n < 10 then "" else Digits(n / 10);
  }

  function Power10(k: nat): nat {
    if k == 0 then 1 else 10 * Power10(k - 1)
  }

  lemma {:induction false} FewDigits(n: nat, k: nat)
    requires k > 0 && n < Power10(k)
    ensures |Digits(n)| <= k
  {
    if n >= 10 {
      assert k > 1 by { assert Power10(1) == 10 * Power10(0); }
      FewDigits(n / 10, k - 1);
    }
  }

  lemma ManyDigits(n: nat)
    requires n <= MAX_CHAR_OFFSET
    ensures |Digits(n)| <= 19
  {
    assert Power10(19) == 10_000_000_000_000_000_000 by {
      assert Power10(5) == 100_000;
      assert Power10(10) == 10_000_000_000;
      assert Power10(15) == 1_000_000_000_000_000;
    }
    FewDigits(n, 19);
  }

  // ---- pages ----

  /** What the program does at row `offset` from character `begin` on. */
  function ItemAt(raw: string, offset: nat, begin: nat): Item
    requires begin <= |raw|
  {
    if |raw| <= MAX_RECORD_CHARS && begin == 0 then Whole(offset, raw)
    else Chunk(offset, begin, if begin + CHUNK_CHARS <= |raw| then raw[begin..begin + CHUNK_CHARS] else raw[begin..], |raw|)
  }

  /** Every item fits on an empty page: re-escaping at most doubles a chunk. */
  lemma FirstItemFits(raw: string, offset: nat, begin: nat)
    requires JsonText(raw) && begin <= |raw| <= MAX_CHAR_OFFSET && offset <= MAX_OFFSET
    ensures |ItemText(ItemAt(raw, offset, begin))| <= MAX_PAGE_CHARS - 1000
  {
    ManyDigits(offset);
    ManyDigits(begin);
    ManyDigits(|raw|);
    EscapedAtMostDoubles(ItemAt(raw, offset, begin).text);
  }

  datatype Position = Position(offset: nat, chars: nat)

  datatype Page = Page(items: seq<Item>, nextOffset: Option<nat>, nextCharOffset: nat)

  datatype ReadResult = Ok(page: Page) | ValueError

  /** Where reading goes on behind an item. */
  function Behind(item: Item): Position {
    match item
    case Whole(offset, _) => Position(offset + 1, 0)
    case Chunk(offset, begin, text, total) => if begin + |text| >= total then Position(offset + 1, 0) else Position(offset, begin + |text|)
  }

  /** The items read on from `from` to `until` without a gap, and each holds the text of its record there. */
  predicate Continues(rows: seq<string>, from: Position, items: seq<Item>, until: Position) {
    if items == [] then from == until
    else
      var item := items[|items| - 1];
      && Behind(item) == until && item.offset < |rows|
      && (match item
          case Whole(offset, text) => text == rows[offset] && Continues(rows, from, items[..|items| - 1], Position(offset, 0))
          case Chunk(offset, begin, text, total) =>
            && total == |rows[offset]| && begin <= total && text <= rows[offset][begin..] && (text != "" || begin == total)
            && Continues(rows, from, items[..|items| - 1], Position(offset, begin)))
  }

  /** How much of a page an item takes. */
  type Size = Item -> nat

  const TEXT_SIZE: Size := (item: Item) => |ItemText(item)|

  function TotalSize(items: seq<Item>, size: Size): nat {
    if items == [] then 0 else TotalSize(items[..|items| - 1], size) + size(items[|items| - 1])
  }

  const PAGE_BUDGET: nat := MAX_PAGE_CHARS - 1000

  /** Where a page of at most `count` items within `budget` ends: before an item that does not fit, or within a record. */
  function PageEnd(rows: seq<string>, at: Position, count: nat, budget: nat, size: Size): Position
    decreases count
  {
    if count == 0 || at.offset >= |rows| || at.chars > |rows[at.offset]| then at
    else
      var item := ItemAt(rows[at.offset], at.offset, at.chars);
      if size(item) > budget then at
      else if Behind(item).chars != 0 then Behind(item)
      else PageEnd(rows, Behind(item), count - 1, budget - size(item), size)
  }

  function MinNat(a: nat, b: nat): nat { if a < b then a else b }

  method MakeItem(raw: string, row: nat, begin: nat) returns (item: Item, next: nat, nextChars: nat)
    requires begin <= |raw|
    ensures item == ItemAt(raw, row, begin) && Position(next, nextChars) == Behind(item)
    ensures (next == row && 0 < nextChars < |raw|) || (next == row + 1 && nextChars == 0)
  {
    if |raw| <= MAX_RECORD_CHARS && begin == 0 {
      item, next, nextChars := Whole(row, raw), row + 1, 0;
    } else {
      var chunk := raw[begin..MinNat(|raw|, begin + CHUNK_CHARS)];
      item := Chunk(row, begin, chunk, |raw|);
      var complete := begin + |chunk| >= |raw|;
      next := if complete then row + 1 else row;
      nextChars := if complete then 0 else begin + |chunk|;
    }
  }

  lemma ItemContinues(rows: seq<string>, from: Position, items: seq<Item>, row: nat, begin: nat)
    requires row < |rows| && begin <= |rows[row]| && Continues(rows, from, items, Position(row, begin))
    ensures var item := ItemAt(rows[row], row, begin); Continues(rows, from, items + [item], Behind(item))
  {
    var item := ItemAt(rows[row], row, begin);
    assert (items + [item])[..|items|] == items;
  }

  lemma NothingRead(rows: seq<string>, at: Position)
    ensures Continues(rows, at, [], at)
  {
  }

  /** A page has read these items and goes on from `at`; it will end at `end`. */
  predicate Reading(rows: seq<string>, from: Position, limit: int, items: seq<Item>, at: Position, budget: int, end: Position, size: Size) {
    && Continues(rows, from, items, at) && 0 <= budget == PAGE_BUDGET - TotalSize(items, size)
    && |items| <= limit && PageEnd(rows, at, limit - |items|, budget, size) == end
  }

  predicate Finished(rows: seq<string>, from: Position, items: seq<Item>, end: Position, size: Size) {
    Continues(rows, from, items, end) && TotalSize(items, size) <= PAGE_BUDGET
  }

  /** A page ends only at its limit, at the end of the archive, within a record, or before an item it has no room for. */
  predicate PageFull(rows: seq<string>, items: seq<Item>, limit: int, until: Position, size: Size) {
    || |items| == limit || until.offset >= |rows| || until.chars != 0
    || TotalSize(items, size) + size(ItemAt(rows[until.offset], until.offset, 0)) > PAGE_BUDGET
  }

  lemma ReadingStarts(rows: seq<string>, from: Position, limit: nat, size: Size)
    ensures Reading(rows, from, limit, [], from, PAGE_BUDGET, PageEnd(rows, from, limit, PAGE_BUDGET, size), size)
  {
    hide PageEnd;
  }

  /** One item of a page. */
  lemma ReadingStep(rows: seq<string>, from: Position, limit: int, items: seq<Item>, at: Position, budget: int, end: Position, size: Size)
    requires Reading(rows, from, limit, items, at, budget, end, size) && at.offset < |rows| && at.chars <= |rows[at.offset]| && |items| < limit
    ensures var item := ItemAt(rows[at.offset], at.offset, at.chars);
            if size(item) > budget then
              at == end && Finished(rows, from, items, end, size) && (at.chars == 0 ==> PageFull(rows, items, limit, at, size))
            else if Behind(item).chars != 0 then Behind(item) == end && Finished(rows, from, items + [item], end, size)
            else Reading(rows, from, limit, items + [item], Behind(item), budget - size(item), end, size)
  {
    hide Behind, ItemAt, Continues, TotalSize, PageEnd;
    var item := ItemAt(rows[at.offset], at.offset, at.chars);
    ItemContinues(rows, from, items, at.offset, at.chars);
    SizeSnoc(items, item, size);
    PageItem(rows, at, limit - |items|, budget, size);
  }

  lemma SizeSnoc(items: seq<Item>, item: Item, size: Size)
    ensures TotalSize(items + [item], size) == TotalSize(items, size) + size(item)
  {
    assert (items + [item])[..|items|] == items;
  }

  lemma PageItem(rows: seq<string>, at: Position, count: nat, budget: nat, size: Size)
    requires at.offset < |rows| && at.chars <= |rows[at.offset]| && count > 0
    ensures var item := ItemAt(rows[at.offset], at.offset, at.chars);
            PageEnd(rows, at, count, budget, size) ==
            if size(item) > budget then at
            else if Behind(item).chars != 0 then Behind(item)
            else PageEnd(rows, Behind(item), count - 1, budget - size(item), size)
  {
    hide Behind, ItemAt;
  }

  lemma ReadingOver(rows: seq<string>, from: Position, limit: int, items: seq<Item>, at: Position, budget: int, end: Position, size: Size)
    requires Reading(rows, from, limit, items, at, budget, end, size) && (|items| == limit || at.offset >= |rows|)
    ensures at == end && Finished(rows, from, items, end, size)
  {
    hide Continues;
  }

  /** `read` of an archive whose records are `rows`. */
  method Read(rows: seq<string>, offset: int, limit: int, charOffset: int) returns (result: ReadResult)
    requires forall i | 0 <= i < |rows| :: JsonText(rows[i]) && |rows[i]| <= MAX_CHAR_OFFSET
    ensures result.ValueError? <==>
            || !(1 <= limit <= MAX_RESULTS) || !(0 <= offset <= MAX_OFFSET) || !(0 <= charOffset <= MAX_CHAR_OFFSET)
            || (offset < |rows| && charOffset > |rows[offset]|)
    ensures result.Ok? ==>
              var page := result.page;
              var until := match page.nextOffset
                           case Some(next) => Position(next, page.nextCharOffset)
                           case None => if page.items == [] then Position(offset, charOffset) else Position(|rows|, 0);
              && Continues(rows, Position(offset, charOffset), page.items, until)
              && until == PageEnd(rows, Position(offset, charOffset), limit, PAGE_BUDGET, TEXT_SIZE)
              && (page.items == [] <==> offset >= |rows|) && TotalSize(page.items, TEXT_SIZE) <= PAGE_BUDGET
              && (page.items != [] ==> PageFull(rows, page.items, limit, until, TEXT_SIZE))
              && |page.items| <= limit && (page.nextOffset.Some? ==> page.nextOffset.value < |rows|)
  {
    if !(1 <= limit <= MAX_RESULTS) || !(0 <= offset <= MAX_OFFSET) || !(0 <= charOffset <= MAX_CHAR_OFFSET) {
      return ValueError;
    }
    ghost var from := Position(offset, charOffset);
    ghost var end := PageEnd(rows, from, limit, PAGE_BUDGET, TEXT_SIZE);
    ReadingStarts(rows, from, limit, TEXT_SIZE);
    hide ItemText, Continues, ItemAt, Behind, PageEnd, JsonText, Reading, TotalSize;
    var items: seq<Item> := [];
    var nextOffset: Option<nat>, nextCharOffset: nat := None, 0;
    var budget := MAX_PAGE_CHARS - 1000;
    var row := offset;
    ghost var at, over := from, false;
    while row < |rows| && row < offset + limit
      invariant offset <= row <= offset + limit && row - offset == |items|
      invariant items != [] ==> offset < |rows| && charOffset <= |rows[offset]|
      invariant !over && Reading(rows, from, limit, items, at, budget, end, TEXT_SIZE)
      invariant items == [] ==> budget == PAGE_BUDGET && nextOffset == None && at == from
      invariant items != [] ==> at == Position(row, 0) && row <= |rows| && nextCharOffset == 0
      invariant items != [] ==> nextOffset == if row < |rows| then Some(row) else None
    {
      var raw := rows[row];
      var begin := if row == offset then charOffset else 0;
      if begin > |raw| {
        return ValueError;
      }
      var item, next, nextChars := MakeItem(raw, row, begin);
      if row == offset {
        FirstItemFits(raw, row, begin);
      }
      assert at == Position(row, begin);
      ReadingStep(rows, from, limit, items, at, budget, end, TEXT_SIZE);
      var size := |ItemText(item)|;
      if size > budget {
        over := true;
        break;
      }
      items := items + [item];
      budget := budget - size;
      at := Behind(item);
      nextOffset := if next < |rows| then Some(next) else None;
      nextCharOffset := nextChars;
      if nextChars != 0 {
        over := true;
        break;
      }
      row := row + 1;
    }
    if !over {
      ReadingOver(rows, from, limit, items, at, budget, end, TEXT_SIZE);
    }
    return Ok(Page(items, nextOffset, nextCharOffset));
  }

  // ---- the whole archive ----

  /** Putting the pieces together again: a chunk that begins further on belongs to the record before it. */
  function Assemble(items: seq<Item>): seq<string> {
    if items == [] then []
    else
      var before, item := Assemble(items[..|items| - 1]), items[|items| - 1];
      if item.Chunk? && item.begin > 0 && before != [] then before[..|before| - 1] + [before[|before| - 1] + item.text]
      else before + [item.text]
  }

  /** What has been read when `until` is reached from the very beginning. */
  function ReadUpTo(rows: seq<string>, until: Position): seq<string>
    requires until.offset <= |rows| && (until.chars > 0 ==> until.offset < |rows| && until.chars <= |rows[until.offset]|)
  {
    rows[..until.offset] + if until.chars > 0 then [rows[until.offset][..until.chars]] else []
  }

  predicate InArchive(rows: seq<string>, at: Position) {
    at.offset <= |rows| && (at.chars > 0 ==> at.offset < |rows| && at.chars <= |rows[at.offset]|)
  }

  lemma ChunkExtends(rows: seq<string>, offset: nat, begin: nat, text: string)
    requires offset < |rows| && begin <= |rows[offset]| && text <= rows[offset][begin..] && (text != "" || begin == |rows[offset]|)
    ensures var before := ReadUpTo(rows, Position(offset, begin));
            var until := if begin + |text| >= |rows[offset]| then Position(offset + 1, 0) else Position(offset, begin + |text|);
            ReadUpTo(rows, until) == if begin > 0 then before[..|before| - 1] + [before[|before| - 1] + text] else before + [text]
  {
    assert rows[offset][..begin] + text == rows[offset][..begin + |text|];
    assert rows[offset][..|rows[offset]|] == rows[offset];
    assert rows[..offset + 1] == rows[..offset] + [rows[offset]];
    var before := ReadUpTo(rows, Position(offset, begin));
    if begin > 0 {
      assert before == rows[..offset] + [rows[offset][..begin]];
      assert before[..|before| - 1] == rows[..offset];
    } else {
      assert before == rows[..offset] && rows[offset][..begin] + text == text;
    }
  }

  /** Items that read on without a gap assemble to exactly the text up to where they end. */
  lemma {:induction false} AssembledIsText(rows: seq<string>, items: seq<Item>, until: Position)
    requires Continues(rows, Position(0, 0), items, until)
    ensures InArchive(rows, until) && Assemble(items) == ReadUpTo(rows, until)
  {
    if items != [] {
      var init, item := items[..|items| - 1], items[|items| - 1];
      match item
      case Whole(offset, text) =>
        AssembledIsText(rows, init, Position(offset, 0));
        assert rows[..offset + 1] == rows[..offset] + [text];
      case Chunk(offset, begin, text, total) =>
        AssembledIsText(rows, init, Position(offset, begin));
        ChunkExtends(rows, offset, begin, text);
    }
  }

  lemma {:induction false} ContinuesConcat(rows: seq<string>, a: Position, first: seq<Item>, b: Position,
      second: seq<Item>, c: Position)
    requires Continues(rows, a, first, b) && Continues(rows, b, second, c)
    ensures Continues(rows, a, first + second, c)
    decreases |second|
  {
    if second == [] {
      assert first + second == first;
    } else {
      var n := |second| - 1;
      assert (first + second)[..|first| + n] == first + second[..n];
      match second[n]
      case Whole(offset, text) => ContinuesConcat(rows, a, first, b, second[..n], Position(offset, 0));
      case Chunk(offset, begin, text, total) => ContinuesConcat(rows, a, first, b, second[..n], Position(offset, begin));
    }
  }

  /** Reading always moves on: by a record, or within one. */
  lemma {:induction false} MovesOn(rows: seq<string>, from: Position, items: seq<Item>, until: Position)
    requires Continues(rows, from, items, until) && items != []
    ensures from.offset < until.offset || (from.offset == until.offset && from.chars < until.chars)
  {
    var init, item := items[..|items| - 1], items[|items| - 1];
    if init != [] {
      MovesOn(rows, from, init, Position(item.offset, if item.Chunk? then item.begin else 0));
    }
  }

  /** Where page number `n` begins when the offsets are followed from the beginning. */
  function PageStart(page: Position -> Position, n: nat): Position {
    if n == 0 then Position(0, 0) else page(PageStart(page, n - 1))
  }

  /** One page of an archive, from where it begins to where it ends. */
  function Paging(rows: seq<string>, limit: nat): Position -> Position {
    (at: Position) => PageEnd(rows, at, limit, PAGE_BUDGET, TEXT_SIZE)
  }

  /** No page begins behind the greatest offset that `read` accepts. */
  ghost predicate StartsInRange(page: Position -> Position, length: nat) {
    forall n: nat :: PageStart(page, n).offset < length ==> PageStart(page, n).offset <= MAX_OFFSET
  }

  lemma {:induction false} NoMorePages(page: Position -> Position, last: nat, n: nat)
    requires page(PageStart(page, last)) == PageStart(page, last) && last <= n
    ensures PageStart(page, n) == PageStart(page, last)
  {
    if last < n {
      NoMorePages(page, last, n - 1);
    }
  }

  /** The position is in the archive, and before the end of its record or at its beginning. */
  predicate Inside(rows: seq<string>, at: Position) {
    at.offset <= |rows| && (at.chars > 0 ==> at.offset < |rows| && at.chars < |rows[at.offset]|)
  }

  /** A page moves on by at most one record per item. */
  lemma {:induction false} PageIsShort(rows: seq<string>, at: Position, count: nat, budget: nat, size: Size)
    requires Inside(rows, at)
    ensures at.offset <= PageEnd(rows, at, count, budget, size).offset <= at.offset + count && Inside(rows, PageEnd(rows, at, count, budget, size))
    decreases count
  {
    if count > 0 && at.offset < |rows| && at.chars <= |rows[at.offset]| {
      var item := ItemAt(rows[at.offset], at.offset, at.chars);
      if size(item) <= budget && Behind(item).chars == 0 {
        PageIsShort(rows, Behind(item), count - 1, budget - size(item), size);
      }
    }
  }

  /**
   Following `next_offset` and `next_char_offset` from the beginning ends, and yields every record exactly
   once, in order, whole or as chunks that concatenate to its text, unless a page begins behind the greatest
   offset. None does up to 1,000,001 records, and one does beyond 1,000,000 and `limit` records.
  */
  method ReadAll(rows: seq<string>, limit: int) returns (items: seq<Item>, ok: bool)
    requires forall i | 0 <= i < |rows| :: JsonText(rows[i]) && |rows[i]| <= MAX_CHAR_OFFSET
    requires 1 <= limit <= MAX_RESULTS
    ensures ok ==> Assemble(items) == rows
    ensures ok <==> StartsInRange(Paging(rows, limit), |rows|)
    ensures |rows| <= MAX_OFFSET + 1 ==> ok
    ensures ok ==> |rows| <= MAX_OFFSET + limit
  {
    hide PageEnd, Continues, StartsInRange, ItemText, Assemble, JsonText;
    ghost var paging := Paging(rows, limit);
    items := [];
    assert Continues(rows, Position(0, 0), [], Position(0, 0)) by { NothingRead(rows, Position(0, 0)); }
    var offset: nat, chars: nat := 0, 0;
    ghost var n: nat := 0;
    while true
      invariant Continues(rows, Position(0, 0), items, Position(offset, chars))
      invariant offset < |rows| || offset == chars == |rows| == 0
      invariant chars > 0 ==> chars < |rows[offset]|
      invariant Position(offset, chars) == PageStart(paging, n)
      invariant forall m: nat | m < n :: PageStart(paging, m).offset <= MAX_OFFSET
      decreases |rows| - offset, if offset < |rows| then |rows[offset]| - chars else 0
    {
      var result := Read(rows, offset, limit, chars);
      if result.ValueError? {
        StartsTooFar(paging, |rows|, n);
        return items, false;
      }
      var page := result.page;
      ghost var until := match page.nextOffset
                         case Some(next) => Position(next, page.nextCharOffset)
                         case None => if page.items == [] then Position(offset, chars) else Position(|rows|, 0);
      PageIsShort(rows, Position(offset, chars), limit, PAGE_BUDGET, TEXT_SIZE);
      n := n + 1;
      assert until == PageStart(paging, n);
      ContinuesConcat(rows, Position(0, 0), items, Position(offset, chars), page.items, until);
      items := items + page.items;
      AssembledIsText(rows, items, until);
      if page.nextOffset.None? {
        assert rows[..|rows|] == rows;
        PageDone(rows, until, limit, PAGE_BUDGET, TEXT_SIZE);
        LastPage(paging, |rows|, n);
        return items, true;
      }
      MovesOn(rows, Position(offset, chars), page.items, until);
      offset, chars := page.nextOffset.value, page.nextCharOffset;
    }
  }

  lemma StartsTooFar(page: Position -> Position, length: nat, n: nat)
    ensures MAX_OFFSET < PageStart(page, n).offset < length ==> !StartsInRange(page, length)
  {
  }

  lemma LastPage(page: Position -> Position, length: nat, last: nat)
    requires PageStart(page, last).offset >= length && page(PageStart(page, last)) == PageStart(page, last)
    requires forall m: nat | m < last :: PageStart(page, m).offset <= MAX_OFFSET
    ensures StartsInRange(page, length)
  {
    hide PageStart;
    forall m: nat | PageStart(page, m).offset < length ensures PageStart(page, m).offset <= MAX_OFFSET {
      if last <= m {
        NoMorePages(page, last, m);
      }
    }
  }

  // ---- what decides beyond 1,000,001 records ----

  /** Fifty such records fit on a page, so the limit alone ends one. */
  predicate ShortRecords(rows: seq<string>) {
    forall i | 0 <= i < |rows| :: |rows[i]| <= 300
  }

  lemma ShortItem(raw: string, offset: nat)
    requires |raw| <= 300 && offset <= MAX_CHAR_OFFSET
    ensures var item := ItemAt(raw, offset, 0); Behind(item) == Position(offset + 1, 0) && TEXT_SIZE(item) <= 350
  {
    ManyDigits(offset);
  }

  lemma {:induction false} ShortPage(rows: seq<string>, limit: nat, offset: nat, count: nat, budget: nat)
    requires ShortRecords(rows) && offset <= |rows| <= MAX_CHAR_OFFSET && count <= limit && budget >= 350 * count
    ensures PageEnd(rows, Position(offset, 0), count, budget, TEXT_SIZE) == Position(MinNat(|rows|, offset + count), 0)
    decreases count
  {
    hide ItemText, ItemAt, Behind, PageEnd;
    if count == 0 || offset == |rows| {
      PageDone(rows, Position(offset, 0), count, budget, TEXT_SIZE);
    } else {
      var item := ItemAt(rows[offset], offset, 0);
      ShortItem(rows[offset], offset);
      PageItem(rows, Position(offset, 0), count, budget, TEXT_SIZE);
      ShortPage(rows, limit, offset + 1, count - 1, budget - TEXT_SIZE(item));
    }
  }

  lemma PageDone(rows: seq<string>, at: Position, count: nat, budget: nat, size: Size)
    ensures (count == 0 || at.offset >= |rows|) ==> PageEnd(rows, at, count, budget, size) == at
  {
  }

  lemma FullPageFits(limit: nat)
    ensures limit <= MAX_RESULTS ==> 350 * limit <= PAGE_BUDGET
  {
  }

  lemma Multiples(a: nat, b: nat, limit: nat)
    ensures a >= b ==> a * limit >= b * limit
  {
  }

  lemma {:induction false} ShortStarts(rows: seq<string>, limit: nat, n: nat)
    requires ShortRecords(rows) && limit <= MAX_RESULTS && |rows| <= MAX_CHAR_OFFSET
    ensures PageStart(Paging(rows, limit), n) == Position(MinNat(|rows|, n * limit), 0)
  {
    hide ShortRecords, PageEnd;
    if n > 0 {
      ShortStarts(rows, limit, n - 1);
      FullPageFits(limit);
      ShortPage(rows, limit, MinNat(|rows|, (n - 1) * limit), limit, PAGE_BUDGET);
    }
  }

  /** With short records pages begin at the multiples of the limit: the last of them decides. */
  lemma ShortArchiveIsReadable(rows: seq<string>, limit: nat)
    requires ShortRecords(rows) && 0 < limit <= MAX_RESULTS && 0 < |rows| <= MAX_CHAR_OFFSET
    ensures StartsInRange(Paging(rows, limit), |rows|) <==> (|rows| - 1) / limit * limit <= MAX_OFFSET
  {
    hide PageStart, ShortRecords, PageEnd;
    var last := (|rows| - 1) / limit;
    assert last * limit <= |rows| - 1 < (last + 1) * limit;
    ShortStarts(rows, limit, last);
    forall n: nat | PageStart(Paging(rows, limit), n).offset < |rows| ensures PageStart(Paging(rows, limit), n).offset <= last * limit {
      ShortStarts(rows, limit, n);
      Multiples(n, last + 1, limit);
      Multiples(last, n, limit);
    }
  }
}
