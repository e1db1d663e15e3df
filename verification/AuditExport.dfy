/** Export of the audit trail: pages of two hundred, each asked for with a cursor made from the last
    entry of the page before. */
module AuditExport {
  import opened Wrappers
  import opened Sequences
  import opened Text
  import opened Json

  datatype Position = Position(occurredAt: int, sourceRank: int, sortId: string)

  datatype Entry = Entry(position: Position, body: string)

  const PAGE := 200
  const MAXIMUM_LINES := 50_000

  // ---------------------------------------------------------------- the store

  /** The order of the trail: newest first, then by source and by sort id, both downwards. */
  predicate Precedes(p: Position, q: Position) {
    p.occurredAt > q.occurredAt ||
    (p.occurredAt == q.occurredAt &&
      (p.sourceRank > q.sourceRank || (p.sourceRank == q.sourceRank && Less(q.sortId, p.sortId))))
  }

  ghost predicate InOrder(rows: seq<Entry>) {
    forall i, j | 0 <= i < j < |rows| :: Precedes(rows[i].position, rows[j].position)
  }

  /** Newest first; in one instant by source and by sort id, both downwards. */
  lemma TrailIsNewestFirst(rows: seq<Entry>, i: nat, j: nat)
    requires InOrder(rows) && i < j < |rows|
    ensures var p, q := rows[i].position, rows[j].position;
      p.occurredAt >= q.occurredAt &&
      (p.occurredAt == q.occurredAt ==> p.sourceRank >= q.sourceRank) &&
      (p.occurredAt == q.occurredAt && p.sourceRank == q.sourceRank ==> Less(q.sortId, p.sortId))
  {
  }

  lemma PrecedesIsTransitive(p: Position, q: Position, r: Position)
    requires Precedes(p, q) && Precedes(q, r)
    ensures Precedes(p, r)
  {
    if p.occurredAt == r.occurredAt && p.sourceRank == r.sourceRank {
      LessIsTransitive(r.sortId, q.sortId, p.sortId);
    }
  }

  datatype StoredPage = StoredPage(items: seq<Entry>, hasMore: bool)

  /** The matching entries strictly after a cursor, at most as many as asked for. */
  function StoreList(rows: seq<Entry>, cursor: Option<Position>, limit: nat): StoredPage {
    var rest := if cursor.None? then rows else Filter(rows, (e: Entry) => Precedes(cursor.value, e.position));
    StoredPage(if |rest| <= limit then rest else rest[..limit], |rest| > limit)
  }

  lemma PrecedesIsStrict(p: Position, q: Position)
    ensures !Precedes(p, p) && !(Precedes(p, q) && Precedes(q, p))
  {
    LessIsTotal(p.sortId, q.sortId);
    LessIsTotal(p.sortId, p.sortId);
  }

  lemma {:induction false} KeepsNone<T(!new)>(s: seq<T>, keep: T -> bool)
    requires forall x | x in s :: !keep(x)
    ensures Filter(s, keep) == []
  {
    if s != [] {
      KeepsNone(s[1..], keep);
    }
  }

  lemma {:induction false} KeepsAll<T(!new)>(s: seq<T>, keep: T -> bool)
    requires forall x | x in s :: keep(x)
    ensures Filter(s, keep) == s
  {
    if s != [] {
      KeepsAll(s[1..], keep);
    }
  }

  lemma {:induction false} KeepsSuffix<T(!new)>(s: seq<T>, n: nat, keep: T -> bool)
    requires n <= |s|
    requires forall i | 0 <= i < n :: !keep(s[i])
    requires forall i | n <= i < |s| :: keep(s[i])
    ensures Filter(s, keep) == s[n..]
  {
    if n == 0 {
      KeepsAll(s, keep);
    } else {
      KeepsSuffix(s[1..], n - 1, keep);
    }
  }

  /** The cursor of an entry leads to the entry right after it. */
  lemma CursorSkipsToNext(rows: seq<Entry>, n: nat, limit: nat)
    requires InOrder(rows) && 0 < n <= |rows|
    ensures StoreList(rows, Some(rows[n - 1].position), limit) == StoreList(rows[n..], None, limit)
  {
    var p := rows[n - 1].position;
    forall i | 0 <= i < n ensures !Precedes(p, rows[i].position) {
      PrecedesIsStrict(p, rows[i].position);
    }
    KeepsSuffix(rows, n, (e: Entry) => Precedes(p, e.position));
  }

  // ---------------------------------------------------------------- cursors

  /** The text forms of instants and of records, which are not part of this model: a record is
      written as JSON and that as base64url. */
  datatype Codec = Codec(
    iso: int -> string, instant: string -> Option<int>, pack: Json -> string, unpack: string -> Option<Json>)

  function CursorRecord(codec: Codec, p: Position): Json {
    Obj([Member("occurredAt", Str(codec.iso(p.occurredAt))),
         Member("sourceRank", Num(Finite(p.sourceRank as real))),
         Member("sortId", Str(p.sortId))])
  }

  function EncodeCursor(codec: Codec, p: Position): string {
    codec.pack(CursorRecord(codec, p))
  }

  predicate IsRank(v: Json) {
    v.Num? && v.n.Finite? && v.n.value == v.n.value.Floor as real && 1.0 <= v.n.value <= 4.0
  }

  const MAXIMUM_CURSOR := 1000

  /** Lengths are counted in UTF-16 units. */
  predicate IsSortId(s: string) {
    1 <= |Units(s)| <= 300
  }

  function DecodeCursor(codec: Codec, text: string): Option<Position> {
    if |Units(text)| < 4 || |Units(text)| > MAXIMUM_CURSOR then None
    else
      match codec.unpack(text)
      case None => None
      case Some(v) =>
        var occurredAt, rank, sortId := Lookup(v, "occurredAt"), Lookup(v, "sourceRank"), Lookup(v, "sortId");
        if !v.Obj? || (exists m :: m in v.members && m.key !in {"occurredAt", "sourceRank", "sortId"}) then None
        else if !occurredAt.Str? || !IsRank(rank) || !sortId.Str? || !IsSortId(sortId.s) then None
        else match codec.instant(occurredAt.s)
          case None => None
          case Some(time) => Some(Position(time, rank.n.value.Floor, sortId.s))
  }

  predicate ValidPosition(p: Position) {
    1 <= p.sourceRank <= 4 && IsSortId(p.sortId)
  }

  /** Only valid positions are decoded, and only from texts of a bounded length. */
  lemma DecodedIsValid(codec: Codec, text: string)
    requires DecodeCursor(codec, text).Some?
    ensures ValidPosition(DecodeCursor(codec, text).value) && 4 <= |Units(text)| <= MAXIMUM_CURSOR
  {
  }

  /** A cursor is decoded exactly if it unpacks to an object with the three members of a position,
      each of its kind and within its limits, and no other. */
  lemma DecodedExactlyWhen(codec: Codec, text: string, p: Position)
    ensures DecodeCursor(codec, text) == Some(p) <==>
      4 <= |Units(text)| <= 1000 && codec.unpack(text).Some? &&
      var v := codec.unpack(text).value;
      v.Obj? && (forall m | m in v.members :: m.key in {"occurredAt", "sourceRank", "sortId"}) &&
      Lookup(v, "sourceRank") == Num(Finite(p.sourceRank as real)) && p.sourceRank in {1, 2, 3, 4} &&
      Lookup(v, "sortId") == Str(p.sortId) && 1 <= |Units(p.sortId)| <= 300 &&
      Lookup(v, "occurredAt").Str? && codec.instant(Lookup(v, "occurredAt").s) == Some(p.occurredAt)
  {
  }

  /** The cursor of a position can be read back. */
  predicate ReadsBack(codec: Codec, p: Position) {
    DecodeCursor(codec, EncodeCursor(codec, p)) == Some(p)
  }

  /** The bytes of a character in JSON text: escaped if need be, else as UTF-8. */
  function CharBytes(c: char): nat {
    if c == '\"' || c == '\\' || c as int in {8, 9, 10, 12, 13} then 2
    else if c as int < 0x20 then 6
    else if c as int < 0x80 then 1
    else if c as int < 0x800 then 2
    else if c as int < 0x1_0000 then 3
    else 4
  }

  /** The text of a character inside a JSON text. */
  function Escaped(c: char): string {
    match c
    case '\"' => "\\\""
    case '\\' => "\\\\"
    case '\n' => "\\n"
    case '\r' => "\\r"
    case '\t' => "\\t"
    case _ =>
      if c as int == 8 then "\\b"
      else if c as int == 12 then "\\f"
      else if c as int < 0x20 then "\\u00" + [Hex(c as int / 16), Hex(c as int % 16)]
      else [c]
  }

  function Hex(digit: nat): (c: char)
    requires digit < 16
    ensures c as int < 0x80
  {
    "0123456789abcdef"[digit]
  }

  /** How many bytes UTF-8 takes: one up to 7 bits, two up to 11, three up to 16, else four. */
  function Utf8Bytes(s: string): nat {
    if s == [] then 0
    else
      var c := s[0] as int;
      (if c < 0x80 then 1 else if c < 0x800 then 2 else if c < 0x1_0000 then 3 else 4) + Utf8Bytes(s[1..])
  }

  lemma CharBytesAreThoseOfItsText(c: char)
    ensures CharBytes(c) == Utf8Bytes(Escaped(c))
  {
    var text := Escaped(c);
    if |text| >= 2 {
      AsciiBytes(text);
    }
  }

  lemma {:induction false} AsciiBytes(s: string)
    requires forall i | 0 <= i < |s| :: s[i] as int < 0x80
    ensures Utf8Bytes(s) == |s|
  {
    if s != [] {
      AsciiBytes(s[1..]);
    }
  }

  function TextBytes(s: string): nat {
    if s == [] then 0 else CharBytes(s[0]) + TextBytes(s[1..])
  }

  /** The bytes of the JSON text of a cursor: keys and punctuation with a rank of one digit, the
      instant, and the sort id. */
  function CursorBytes(codec: Codec, p: Position): nat {
    44 + |codec.iso(p.occurredAt)| + TextBytes(p.sortId)
  }

  /** What the text forms do to one position: instant and record are read back as written, and each
      three bytes take four characters. */
  predicate Packed(codec: Codec, p: Position) {
    |codec.iso(p.occurredAt)| <= 27 &&
    codec.instant(codec.iso(p.occurredAt)) == Some(p.occurredAt) &&
    codec.unpack(EncodeCursor(codec, p)) == Some(CursorRecord(codec, p)) &&
    |Units(EncodeCursor(codec, p))| == (4 * CursorBytes(codec, p) + 2) / 3
  }

  predicate TooLong(codec: Codec, p: Position) {
    CursorBytes(codec, p) > 750
  }

  /** A sort id of the wrong length, another rank, or too many bytes in all. */
  predicate Unreadable(codec: Codec, p: Position) {
    !ValidPosition(p) || TooLong(codec, p)
  }

  lemma RecordIsRead(codec: Codec, p: Position)
    ensures var v := CursorRecord(codec, p);
      Lookup(v, "occurredAt") == Str(codec.iso(p.occurredAt)) &&
      Lookup(v, "sourceRank") == Num(Finite(p.sourceRank as real)) && Lookup(v, "sortId") == Str(p.sortId)
  {
    var ms := CursorRecord(codec, p).members;
    assert ms[0] in ms && ms[1] in ms && ms[2] in ms;
    assert ms[1..][0] == ms[1] && ms[1..][1..][0] == ms[2];
  }

  /** The cursor of a position is read back if and only if the position is valid and its JSON text
      has at most 750 bytes, which base64url turns into the 1000 characters that are accepted. */
  lemma ReadsBackExactlyWhen(codec: Codec, p: Position)
    requires Packed(codec, p)
    ensures ReadsBack(codec, p) <==> !Unreadable(codec, p)
    ensures Unreadable(codec, p) ==> DecodeCursor(codec, EncodeCursor(codec, p)).None?
  {
    RecordIsRead(codec, p);
  }

  /** Plain ASCII without escapes, as in all sort ids that are numbers or generated names. */
  predicate Plain(s: string) {
    forall i | 0 <= i < |s| :: CharBytes(s[i]) == 1
  }

  lemma {:induction false} PlainBytes(s: string)
    requires Plain(s)
    ensures TextBytes(s) == |s|
  {
    if s != [] {
      PlainBytes(s[1..]);
    }
  }

  lemma PlainIsShort(codec: Codec, p: Position)
    requires ValidPosition(p) && Packed(codec, p) && Plain(p.sortId)
    ensures !Unreadable(codec, p)
  {
    PlainBytes(p.sortId);
  }

  /** With a plain sort id a valid position is always read back. */
  lemma CursorRoundTrip(codec: Codec, p: Position)
    requires ValidPosition(p) && Packed(codec, p) && Plain(p.sortId)
    ensures ReadsBack(codec, p)
  {
    PlainIsShort(codec, p);
    ReadsBackExactlyWhen(codec, p);
  }

  lemma {:induction false} EqualBytes(s: string, bytes: nat)
    requires forall i | 0 <= i < |s| :: CharBytes(s[i]) == bytes
    ensures TextBytes(s) == |s| * bytes
  {
    if s != [] {
      EqualBytes(s[1..], bytes);
    }
  }

  /** A sort id of three hundred Hangul syllables is valid, but its cursor is refused. */
  lemma LongCursorIsRefused(codec: Codec, occurredAt: int) returns (p: Position)
    ensures ValidPosition(p) && p.occurredAt == occurredAt && TooLong(codec, p)
    ensures Packed(codec, p) ==> !ReadsBack(codec, p)
  {
    p := Position(occurredAt, 1, seq(300, i => '\U{AC00}'));
    EqualBytes(p.sortId, 3);
    EqualUnits(p.sortId, 1);
    if Packed(codec, p) {
      ReadsBackExactlyWhen(codec, p);
    }
  }

  /** A sort id of 160 characters above U+FFFF is short enough in bytes, but counts 320 units. */
  lemma WideSortIdIsRefused(codec: Codec, occurredAt: int) returns (p: Position)
    ensures |p.sortId| == 160 && p.occurredAt == occurredAt && Unreadable(codec, p)
    ensures Packed(codec, p) ==> !TooLong(codec, p) && !ReadsBack(codec, p)
  {
    p := Position(occurredAt, 1, seq(160, i => '\U{1F600}'));
    EqualBytes(p.sortId, 4);
    EqualUnits(p.sortId, 2);
    if Packed(codec, p) {
      ReadsBackExactlyWhen(codec, p);
    }
  }

  // ---------------------------------------------------------------- listing and exporting

  datatype Page = Page(items: seq<Entry>, nextCursor: Option<string>)

  datatype Listing = Listed(page: Page) | InvalidQuery

  function List(rows: seq<Entry>, codec: Codec, cursor: Option<string>, limit: int): Listing {
    if limit < 1 || limit > 200 then InvalidQuery
    else
      var position := if cursor.None? then None else DecodeCursor(codec, cursor.value);
      if cursor.Some? && position.None? then InvalidQuery else Listed(PageAfter(rows, codec, position, limit))
  }

  function PageAfter(rows: seq<Entry>, codec: Codec, position: Option<Position>, limit: nat): Page {
    var page := StoreList(rows, position, limit);
    var n := |page.items|;
    Page(page.items, if page.hasMore && n > 0 then Some(EncodeCursor(codec, page.items[n - 1].position)) else None)
  }

  /** How many of the rows a cursor has behind it. */
  ghost predicate Skips(rows: seq<Entry>, p: Option<Position>, k: nat) {
    k <= |rows| &&
    (if p.None? then k == 0
     else (forall i | 0 <= i < k :: !Precedes(p.value, rows[i].position)) &&
          forall i | k <= i < |rows| :: Precedes(p.value, rows[i].position))
  }

  lemma {:induction false} SomeRowsAreSkipped(rows: seq<Entry>, p: Position) returns (k: nat)
    requires InOrder(rows)
    ensures Skips(rows, Some(p), k)
  {
    if rows == [] {
      k := 0;
    } else if Precedes(p, rows[0].position) {
      k := 0;
      forall i | 0 < i < |rows| ensures Precedes(p, rows[i].position) {
        PrecedesIsTransitive(p, rows[0].position, rows[i].position);
      }
    } else {
      k := SomeRowsAreSkipped(rows[1..], p);
      k := k + 1;
      assert forall i | 1 <= i < |rows| :: rows[i] == rows[1..][i - 1];
    }
  }

  /** A listing is refused exactly for a limit outside of 1 to 200 or an unreadable cursor; else it
      has the rows after the cursor, as many as the limit allows, and a cursor of its last row if
      there are more. */
  lemma ListMeans(rows: seq<Entry>, codec: Codec, cursor: Option<string>, limit: int, k: nat)
    requires var p := if cursor.None? then None else DecodeCursor(codec, cursor.value); Skips(rows, p, k)
    ensures var listing := List(rows, codec, cursor, limit);
      (listing.InvalidQuery? <==>
        !(1 <= limit <= 200) || (cursor.Some? && DecodeCursor(codec, cursor.value).None?)) &&
      (listing.Listed? ==>
        var n := if |rows| - k <= limit then |rows| - k else limit;
        listing.page.items == rows[k..k + n] &&
        (listing.page.nextCursor.Some? <==> k + n < |rows|) &&
        (k + n < |rows| ==> listing.page.nextCursor == Some(EncodeCursor(codec, rows[k + n - 1].position))))
  {
    var p := if cursor.None? then None else DecodeCursor(codec, cursor.value);
    if 1 <= limit {
      PageMeans(rows, codec, p, limit, k);
    }
  }

  lemma StoreMeans(rows: seq<Entry>, p: Option<Position>, limit: nat, k: nat)
    requires Skips(rows, p, k)
    ensures var n := if |rows| - k <= limit then |rows| - k else limit;
      StoreList(rows, p, limit) == StoredPage(rows[k..k + n], k + n < |rows|)
  {
    if p.Some? {
      KeepsSuffix(rows, k, (e: Entry) => Precedes(p.value, e.position));
    } else {
      assert rows[0..] == rows;
    }
  }

  lemma PageMeans(rows: seq<Entry>, codec: Codec, p: Option<Position>, limit: nat, k: nat)
    requires Skips(rows, p, k) && limit >= 1
    ensures var page, n := PageAfter(rows, codec, p, limit), if |rows| - k <= limit then |rows| - k else limit;
      page.items == rows[k..k + n] && (page.nextCursor.Some? <==> k + n < |rows|) &&
      (k + n < |rows| ==> page.nextCursor == Some(EncodeCursor(codec, rows[k + n - 1].position)))
  {
    StoreMeans(rows, p, limit, k);
  }

  datatype Export = Exported(lines: seq<string>) | TooLarge | Refused

  function Lines(entries: seq<Entry>, render: Entry -> string): seq<string> {
    if entries == [] then [] else Lines(entries[..|entries| - 1], render) + [render(entries[|entries| - 1])]
  }

  lemma LinesExtend(rows: seq<Entry>, n: nat, render: Entry -> string)
    requires n < |rows|
    ensures Lines(rows[..n + 1], render) == Lines(rows[..n], render) + [render(rows[n])] &&
      |Lines(rows[..n], render)| == n
  {
    assert rows[..n + 1][..n] == rows[..n];
    LinesLength(rows[..n], render);
  }

  lemma {:induction false} LinesLength(entries: seq<Entry>, render: Entry -> string)
    ensures |Lines(entries, render)| == |entries|
  {
    if entries != [] {
      LinesLength(entries[..|entries| - 1], render);
    }
  }

  /** A full page ends here and another one follows. */
  predicate IsPageEnd(rows: seq<Entry>, n: nat) {
    0 < n < |rows| && n % 200 == 0
  }

  /** A cursor the export needs cannot be read back. */
  ghost predicate Breaks(rows: seq<Entry>, codec: Codec) {
    exists n: nat :: IsPageEnd(rows, n) && n <= 50_000 && Unreadable(codec, rows[n - 1].position)
  }

  /** The rows of a store: in order, with positions that are packed as they should. */
  ghost predicate Trail(rows: seq<Entry>, codec: Codec) {
    InOrder(rows) && forall i | 0 <= i < |rows| :: Packed(codec, rows[i].position)
  }

  ghost predicate NoneUnreadable(rows: seq<Entry>, codec: Codec, n: nat) {
    forall k: nat | IsPageEnd(rows, k) && k < n :: !Unreadable(codec, rows[k - 1].position)
  }

  /** The page that starts at position n, with the cursor to the one after it. */
  function PageFrom(rows: seq<Entry>, codec: Codec, n: nat): Page
    requires n <= |rows|
  {
    var end := if |rows| - n <= PAGE then |rows| else n + PAGE;
    Page(rows[n..end], if end < |rows| then Some(EncodeCursor(codec, rows[end - 1].position)) else None)
  }

  lemma ListFrom(rows: seq<Entry>, codec: Codec, n: nat)
    requires InOrder(rows) && n <= |rows|
    ensures PageAfter(rows, codec, if n == 0 then None else Some(rows[n - 1].position), PAGE) ==
      PageFrom(rows, codec, n)
  {
    var end := if |rows| - n <= PAGE then |rows| else n + PAGE;
    if n > 0 {
      CursorSkipsToNext(rows, n, PAGE);
    } else {
      assert rows[n..] == rows;
    }
    assert rows[n..][..end - n] == rows[n..end];
    assert StoreList(rows[n..], None, PAGE) == StoredPage(rows[n..end], end < |rows|);
  }

  /** The cursor with which the page at position n is asked for. */
  function CursorAt(rows: seq<Entry>, codec: Codec, n: nat): Option<string>
    requires n <= |rows|
  {
    if n == 0 then None else Some(EncodeCursor(codec, rows[n - 1].position))
  }

  lemma PageItems(rows: seq<Entry>, codec: Codec, n: nat)
    requires n <= |rows|
    ensures var items := PageFrom(rows, codec, n).items; n + |items| <= |rows| && items == rows[n..n + |items|]
  {
  }

  lemma ListOrRefuse(rows: seq<Entry>, codec: Codec, cursor: Option<string>, n: nat)
    requires Trail(rows, codec) && n <= |rows| && cursor == CursorAt(rows, codec, n)
    ensures List(rows, codec, cursor, PAGE).InvalidQuery? <==> n > 0 && Unreadable(codec, rows[n - 1].position)
    ensures List(rows, codec, cursor, PAGE).Listed? ==>
      List(rows, codec, cursor, PAGE) == Listed(PageFrom(rows, codec, n))
  {
    if n > 0 {
      ReadsBackExactlyWhen(codec, rows[n - 1].position);
    }
    ListFrom(rows, codec, n);
  }

  /** Emits the entries of a page, one line each, unless there are too many. */
  method Emit(ghost rows: seq<Entry>, ghost n: nat, items: seq<Entry>, lines: seq<string>, render: Entry -> string)
    returns (more: seq<string>, tooLarge: bool)
    requires n + |items| <= |rows| && items == rows[n..n + |items|] && n <= MAXIMUM_LINES
    requires lines == Lines(rows[..n], render)
    ensures tooLarge <==> n + |items| > MAXIMUM_LINES
    ensures !tooLarge ==> more == Lines(rows[..n + |items|], render)
  {
    more := lines;
    for i := 0 to |items|
      invariant more == Lines(rows[..n + i], render) && n + i <= MAXIMUM_LINES
    {
      LinesExtend(rows, n + i, render);
      more := more + [render(items[i])];
      if |more| > MAXIMUM_LINES {
        return more, true;
      }
    }
    return more, false;
  }

  /** Where the export stands after n lines: at the start, at the end of a full page with the cursor
      of its last entry, or at the end. */
  ghost predicate StandsAt(rows: seq<Entry>, codec: Codec, n: nat, cursor: Option<string>, more: bool) {
    n <= |rows| && n <= MAXIMUM_LINES && NoneUnreadable(rows, codec, n) &&
    (more ==> n % PAGE == 0 && (n > 0 ==> n < |rows|) && cursor == CursorAt(rows, codec, n)) &&
    (!more ==> n == |rows|)
  }

  lemma RefusedIsBroken(rows: seq<Entry>, codec: Codec, n: nat, cursor: Option<string>)
    requires StandsAt(rows, codec, n, cursor, true) && n > 0 && Unreadable(codec, rows[n - 1].position)
    ensures Breaks(rows, codec)
  {
    assert IsPageEnd(rows, n);
  }

  lemma TooLargeIsUnbroken(rows: seq<Entry>, codec: Codec, n: nat, cursor: Option<string>)
    requires StandsAt(rows, codec, n, cursor, true) && (n > 0 ==> !Unreadable(codec, rows[n - 1].position))
    requires n + |PageFrom(rows, codec, n).items| > MAXIMUM_LINES
    ensures !Breaks(rows, codec) && |rows| > MAXIMUM_LINES
  {
    assert n == MAXIMUM_LINES;
  }

  lemma MovesOn(rows: seq<Entry>, codec: Codec, n: nat, cursor: Option<string>)
    requires StandsAt(rows, codec, n, cursor, true) && (n > 0 ==> !Unreadable(codec, rows[n - 1].position))
    requires n + |PageFrom(rows, codec, n).items| <= MAXIMUM_LINES
    ensures
      var page := PageFrom(rows, codec, n);
      StandsAt(rows, codec, n + |page.items|, page.nextCursor, page.nextCursor.Some?) &&
        (page.nextCursor.Some? ==> page.items != [])
  {
    var page := PageFrom(rows, codec, n);
    forall k: nat | IsPageEnd(rows, k) && k < n + |page.items| ensures !Unreadable(codec, rows[k - 1].position) {
      assert k <= n;
    }
  }

  lemma FinishedIsUnbroken(rows: seq<Entry>, codec: Codec, n: nat, cursor: Option<string>)
    requires StandsAt(rows, codec, n, cursor, false)
    ensures !Breaks(rows, codec) && |rows| <= MAXIMUM_LINES && rows[..n] == rows
  {
  }

  /** Every matching entry exactly once and in order, or a failure exactly if there are more than
      fifty thousand; but a page-end entry whose cursor cannot be read back fails the export before that. */
  ghost predicate IsRight(rows: seq<Entry>, codec: Codec, render: Entry -> string, r: Export) {
    r == if Breaks(rows, codec) then Refused
         else if |rows| > 50_000 then TooLarge
         else Exported(Lines(rows, render))
  }

  method Fetch(rows: seq<Entry>, codec: Codec, cursor: Option<string>, ghost n: nat) returns (listing: Listing)
    requires Trail(rows, codec) && n <= |rows|
    requires cursor == CursorAt(rows, codec, n)
    ensures listing.InvalidQuery? <==> n > 0 && Unreadable(codec, rows[n - 1].position)
    ensures listing.Listed? ==> listing.page == PageFrom(rows, codec, n)
  {
    listing := List(rows, codec, cursor, PAGE);
    ListOrRefuse(rows, codec, cursor, n);
  }

  /** Emits a page that was listed: too many lines, or the lines so far and the next cursor. */
  method EmitPage(ghost rows: seq<Entry>, ghost codec: Codec, render: Entry -> string, lines: seq<string>,
                  ghost cursor: Option<string>, page: Page, ghost n: nat)
    returns (tooLarge: bool, longer: seq<string>, ghost m: nat)
    requires StandsAt(rows, codec, n, cursor, true) && lines == Lines(rows[..n], render)
    requires page == PageFrom(rows, codec, n) && (n > 0 ==> !Unreadable(codec, rows[n - 1].position))
    ensures tooLarge ==> !Breaks(rows, codec) && |rows| > MAXIMUM_LINES
    ensures !tooLarge ==> StandsAt(rows, codec, m, page.nextCursor, page.nextCursor.Some?)
    ensures !tooLarge ==> longer == Lines(rows[..m], render) && (page.nextCursor.Some? ==> m > n)
  {
    PageItems(rows, codec, n);
    longer, tooLarge := Emit(rows, n, page.items, lines, render);
    m := n + |page.items|;
    if tooLarge {
      TooLargeIsUnbroken(rows, codec, n, cursor);
    } else {
      MovesOn(rows, codec, n, cursor);
    }
  }

  /** One page of the export: an early end, or the lines so far and the cursor for the next page. */
  method ExportPage(rows: seq<Entry>, codec: Codec, render: Entry -> string, lines: seq<string>, cursor: Option<string>,
                    ghost n: nat)
    returns (early: Option<Export>, longer: seq<string>, next: Option<string>, ghost m: nat)
    requires Trail(rows, codec)
    requires StandsAt(rows, codec, n, cursor, true) && lines == Lines(rows[..n], render)
    ensures early.Some? ==> IsRight(rows, codec, render, early.value)
    ensures early.None? ==> StandsAt(rows, codec, m, next, next.Some?) && longer == Lines(rows[..m], render)
    ensures early.None? ==> (next.Some? ==> m > n)
  {
    longer, next, m := lines, cursor, n;
    var listing := Fetch(rows, codec, cursor, n);
    if listing.InvalidQuery? {
      RefusedIsBroken(rows, codec, n, cursor);
      return Some(Refused), longer, next, m;
    }
    var tooLarge;
    tooLarge, longer, m := EmitPage(rows, codec, render, lines, cursor, listing.page, n);
    next := listing.page.nextCursor;
    early := if tooLarge then Some(TooLarge) else None;
  }

  method ExportTrail(rows: seq<Entry>, codec: Codec, render: Entry -> string) returns (r: Export)
    requires Trail(rows, codec)
    ensures IsRight(rows, codec, render, r)
  {
    var lines: seq<string> := [];
    var cursor: Option<string> := None;
    var more := true;
    ghost var n: nat := 0;
    while more
      invariant StandsAt(rows, codec, n, cursor, more) && lines == Lines(rows[..n], render)
      decreases |rows| - n, more
    {
      var early;
      early, lines, cursor, n := ExportPage(rows, codec, render, lines, cursor, n);
      if early.Some? {
        return early.value;
      }
      more := cursor.Some?;
    }
    FinishedIsUnbroken(rows, codec, n, cursor);
    return Exported(lines);
  }

  /** With valid positions and plain sort ids nothing but the number of entries decides. */
  lemma PlainTrailIsUnbroken(rows: seq<Entry>, codec: Codec)
    requires Trail(rows, codec)
    requires forall i | 0 <= i < |rows| :: ValidPosition(rows[i].position) && Plain(rows[i].position.sortId)
    ensures !Breaks(rows, codec)
  {
    forall n: nat | IsPageEnd(rows, n) ensures !Unreadable(codec, rows[n - 1].position) {
      PlainIsShort(codec, rows[n - 1].position);
    }
  }
}
