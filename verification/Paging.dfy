/**
 Cursor pages of a list: the decimal cursor, the split of a fetched window, and what
 a client that follows `next_cursor` sees.
 */
module Paging {
  import opened Wrappers

  const U64_MAX: nat := 0xFFFF_FFFF_FFFF_FFFF
  const DEFAULT_PAGE_LIMIT: nat := 50
  const MAX_PAGE_LIMIT: nat := 500

  function SaturatingAdd(a: nat, b: nat): nat {
    if a + b <= U64_MAX then a + b else U64_MAX
  }

  // ----------------------------------------------------------------- cursors

  function DigitChar(d: nat): (c: char)
    requires d < 10
    ensures IsDigit(c) && DigitValue(c) == d
  {
    '0' + d as char
  }

  predicate IsDigit(c: char) {
    '0' <= c <= '9'
  }

  function DigitValue(c: char): (d: nat)
    requires IsDigit(c)
    ensures d < 10
  {
    (c - '0') as nat
  }

  predicate AllDigits(s: string) {
    forall i :: 0 <= i < |s| ==> IsDigit(s[i])
  }

  /** `offset.to_string()`. */
  function EncodeCursor(offset: nat): string {
    if offset < 10 then [DigitChar(offset)] else EncodeCursor(offset / 10) + [DigitChar(offset % 10)]
  }

  function Value(s: string): nat
    requires AllDigits(s)
  {
    if s == "" then 0 else 10 * Value(s[..|s| - 1]) + DigitValue(s[|s| - 1])
  }

  /** `parse::<u64>`: one leading `+` and leading zeros are accepted, no sign alone, nothing above 64 bits. */
  function DecodeCursor(cursor: string): Result<nat, string> {
    var digits := if cursor != "" && cursor[0] == '+' then cursor[1..] else cursor;
    if digits != "" && AllDigits(digits) && Value(digits) <= U64_MAX then Ok(Value(digits))
    else Err("unknown cursor: " + cursor)
  }

  lemma {:induction false} EncodedDigits(offset: nat)
    ensures var s := EncodeCursor(offset);
            s != "" && AllDigits(s) && Value(s) == offset && (s[0] == '0' ==> offset == 0)
  {
    if offset >= 10 {
      EncodedDigits(offset / 10);
      var s := EncodeCursor(offset);
      assert s[..|s| - 1] == EncodeCursor(offset / 10);
    } else {
      assert Value(EncodeCursor(offset)[..0]) == 0;
    }
  }

  /** Printing a cursor and reading it back gives the offset, for every 64-bit offset and no other. */
  lemma CursorRoundTrips(offset: nat)
    ensures DecodeCursor(EncodeCursor(offset)) == Ok(offset) <==> offset <= U64_MAX
    ensures DecodeCursor(EncodeCursor(offset)).Ok? <==> offset <= U64_MAX
  {
    EncodedDigits(offset);
  }

  predicate Canonical(s: string) {
    s != "" && AllDigits(s) && (s[0] == '0' ==> |s| == 1)
  }

  lemma {:induction false} CanonicalIsPrinted(s: string)
    requires Canonical(s)
    ensures EncodeCursor(Value(s)) == s
    ensures s[0] != '0' ==> Value(s) > 0
  {
    var n := |s| - 1;
    if n == 0 {
      assert Value(s[..0]) == 0;
      assert s == [s[0]];
    } else {
      assert s[..n][0] == s[0];
      CanonicalIsPrinted(s[..n]);
      assert Value(s) / 10 == Value(s[..n]) && Value(s) % 10 == DigitValue(s[n]);
      assert s == s[..n] + [s[n]];
    }
  }

  /** An accepted cursor is one the server printed exactly when it has no sign and no superfluous zero. */
  lemma PrintedIffCanonical(cursor: string)
    requires DecodeCursor(cursor).Ok?
    ensures EncodeCursor(DecodeCursor(cursor).value) == cursor <==> Canonical(cursor)
  {
    var offset := DecodeCursor(cursor).value;
    EncodedDigits(offset);
    PrintedIsCanonical(offset);
    if Canonical(cursor) {
      CanonicalIsPrinted(cursor);
    }
  }

  lemma {:induction false} PrintedIsCanonical(offset: nat)
    ensures Canonical(EncodeCursor(offset))
  {
    EncodedDigits(offset);
    if offset >= 10 {
      PrintedIsCanonical(offset / 10);
      EncodedDigits(offset / 10);
      assert EncodeCursor(offset)[0] == EncodeCursor(offset / 10)[0];
    }
  }

  predicate AllZeros(s: string) {
    forall i :: 0 <= i < |s| ==> s[i] == '0'
  }

  lemma {:induction false} ZerosValueless(zeros: string, s: string)
    requires AllZeros(zeros) && AllDigits(s)
    ensures AllDigits(zeros + s) && Value(zeros + s) == Value(s)
    decreases |zeros|, |s|
  {
    var all := zeros + s;
    if s != "" {
      ZerosValueless(zeros, s[..|s| - 1]);
      assert all[..|all| - 1] == zeros + s[..|s| - 1];
    } else if zeros != "" {
      ZerosValueless(zeros[..|zeros| - 1], "");
      assert all[..|all| - 1] == zeros[..|zeros| - 1] + "";
      assert all[|all| - 1] == '0';
    } else {
      assert all == s;
    }
  }

  /** Digits are what is printed for their value, behind zeros. */
  lemma {:induction false} DigitsArePrinted(s: string) returns (zeros: string)
    requires s != "" && AllDigits(s)
    ensures AllZeros(zeros) && s == zeros + EncodeCursor(Value(s))
    decreases |s|
  {
    if s[0] != '0' || |s| == 1 {
      zeros := "";
      CanonicalIsPrinted(s);
    } else {
      var rest := s[1..];
      assert s == "0" + rest;
      ZerosValueless("0", rest);
      var more := DigitsArePrinted(rest);
      zeros := "0" + more;
      assert s == zeros + EncodeCursor(Value(rest));
    }
  }

  ghost predicate Spells(cursor: string, offset: nat) {
    exists sign: string, zeros: string :: (sign == "" || sign == "+") && AllZeros(zeros) && cursor == sign + zeros + EncodeCursor(offset)
  }

  lemma SpelledDecodes(sign: string, zeros: string, offset: nat)
    requires (sign == "" || sign == "+") && AllZeros(zeros) && offset <= U64_MAX
    ensures DecodeCursor(sign + zeros + EncodeCursor(offset)) == Ok(offset)
  {
    hide EncodeCursor, Value;
    EncodedDigits(offset);
    ZerosValueless(zeros, EncodeCursor(offset));
    var cursor := sign + zeros + EncodeCursor(offset);
    assert cursor[|sign|..] == zeros + EncodeCursor(offset);
  }

  lemma DecodedSpells(cursor: string)
    requires DecodeCursor(cursor).Ok?
    ensures Spells(cursor, DecodeCursor(cursor).value)
  {
    hide EncodeCursor, Value;
    var sign := if cursor[0] == '+' then "+" else "";
    var digits := cursor[|sign|..];
    var zeros := DigitsArePrinted(digits);
    assert cursor == sign + zeros + EncodeCursor(Value(digits));
  }

  /** The accepted cursors: the offset as it is printed, perhaps behind zeros, perhaps behind a plus. */
  lemma AcceptedIff(cursor: string, offset: nat)
    ensures DecodeCursor(cursor) == Ok(offset) <==> offset <= U64_MAX && Spells(cursor, offset)
  {
    hide EncodeCursor, DecodeCursor, AllZeros;
    DecodedFits(cursor);
    if DecodeCursor(cursor) == Ok(offset) {
      DecodedSpells(cursor);
    }
    if offset <= U64_MAX && Spells(cursor, offset) {
      var sign: string, zeros: string :| (sign == "" || sign == "+") && AllZeros(zeros) && cursor == sign + zeros + EncodeCursor(offset);
      SpelledDecodes(sign, zeros, offset);
    }
  }

  lemma DecodedFits(cursor: string)
    ensures DecodeCursor(cursor).Ok? ==> DecodeCursor(cursor).value <= U64_MAX
  {
  }

  // ------------------------------------------------------------------- pages

  datatype CursorPage<T> = CursorPage(items: seq<T>, limit: nat, next: Option<string>, hasMore: bool)

  function ResolveLimit(limit: Option<nat>): nat {
    Clamp(if limit.Some? then limit.value else DEFAULT_PAGE_LIMIT, 1, MAX_PAGE_LIMIT)
  }

  /** The limit and offset a request stands for. */
  function ResolveCursorPage(limit: Option<nat>, cursor: Option<string>): Result<(nat, nat), string> {
    if cursor.None? || cursor.value == "" then Ok((ResolveLimit(limit), 0))
    else
      match DecodeCursor(cursor.value)
      case Ok(offset) => Ok((ResolveLimit(limit), offset))
      case Err(message) => Err(message)
  }

  function FetchSize(limit: nat): nat {
    SaturatingAdd(limit, 1)
  }

  function Min(a: nat, b: nat): nat {
    if a <= b then a else b
  }

  /** `skip(offset).take(size)`. */
  function Window<T>(list: seq<T>, offset: nat, size: nat): (w: seq<T>)
    ensures |w| == Min(size, |list| - Min(offset, |list|))
    ensures forall i :: 0 <= i < |w| ==> w[i] == list[offset + i]
  {
    var from := Min(offset, |list|);
    list[from..from + Min(size, |list| - from)]
  }

  /** The page a fetched window makes. */
  method FromWindow<T>(window: seq<T>, limit: nat, offset: nat) returns (page: CursorPage<T>)
    ensures page == PageOf(window, limit, offset)
  {
    var items := window;
    var hasMore := |items| > limit;
    if hasMore {
      items := items[..limit];
    }
    page := CursorPage(items, limit, if hasMore then Some(EncodeCursor(SaturatingAdd(offset, limit))) else None, hasMore);
  }

  function PageOf<T>(window: seq<T>, limit: nat, offset: nat): CursorPage<T> {
    CursorPage(window[..Min(limit, |window|)], limit,
               if |window| > limit then Some(EncodeCursor(SaturatingAdd(offset, limit))) else None, |window| > limit)
  }

  /** One request against a list. */
  function Served<T>(list: seq<T>, limit: Option<nat>, cursor: Option<string>): Result<CursorPage<T>, string> {
    match ResolveCursorPage(limit, cursor)
    case Err(message) => Err(message)
    case Ok((size, offset)) => Ok(PageOf(Window(list, offset, FetchSize(size)), size, offset))
  }

  /** `page` is what the cursor of the page before it gives. */
  predicate Continues<T(==)>(list: seq<T>, limit: Option<nat>, previous: CursorPage<T>, page: CursorPage<T>) {
    previous.next.Some? && Served(list, limit, previous.next) == Ok(page)
  }

  /** A client that starts without a cursor and passes back each `next`, with limits of its choice. */
  predicate Followed<T(==)>(list: seq<T>, limits: seq<Option<nat>>, pages: seq<CursorPage<T>>) {
    && |limits| == |pages| > 0
    && Served(list, limits[0], None) == Ok(pages[0])
    && forall k :: 0 < k < |pages| ==> Continues(list, limits[k], pages[k - 1], pages[k])
  }

  function Items<T>(pages: seq<CursorPage<T>>): seq<T> {
    if pages == [] then [] else Items(pages[..|pages| - 1]) + pages[|pages| - 1].items
  }

  /** The cursor stands for the offset: none, or an empty one, for the start. */
  predicate StandsFor(cursor: Option<string>, offset: nat) {
    if cursor.None? || cursor.value == "" then offset == 0 else DecodeCursor(cursor.value) == Ok(offset)
  }

  /**
   A request is answered with the items from its offset, as many as asked for or as
   there are; one with a cursor that stands for no offset is refused.
   */
  lemma PageFor<T>(list: seq<T>, limit: Option<nat>, cursor: Option<string>, offset: nat)
    requires |list| <= U64_MAX
    ensures Served(list, limit, cursor).Err? <==> cursor.Some? && cursor.value != "" && DecodeCursor(cursor.value).Err?
    ensures StandsFor(cursor, offset) ==>
              var page := Served(list, limit, cursor).value; var n := Asked(limit, 50, 500);
              && page.limit == n
              && page.items == list[Min(offset, |list|)..Min(offset + n, |list|)]
              && (page.hasMore <==> offset + n < |list|)
              && page.next == if offset + n < |list| then Some(EncodeCursor(offset + n)) else None
  {
    hide EncodeCursor, DecodeCursor;
    var size := ResolveLimit(limit);
    var window := Window(list, offset, FetchSize(size));
    assert size == Asked(limit, 50, 500);
    assert window[..Min(size, |window|)] == list[Min(offset, |list|)..Min(offset + size, |list|)];
  }

  /** One page from a known offset. */
  lemma PageAt<T>(list: seq<T>, limit: Option<nat>, cursor: Option<string>, offset: nat)
    requires |list| <= U64_MAX && offset <= |list|
    requires if offset == 0 then cursor.None? else cursor == Some(EncodeCursor(offset))
    ensures Served(list, limit, cursor).Ok?
    ensures var page := Served(list, limit, cursor).value;
            var end := offset + |page.items|;
            && end <= |list| && page.items == list[offset..end]
            && |page.items| == Min(Asked(limit, 50, 500), |list| - offset)
            && (page.hasMore <==> end < |list|)
            && (end < |list| ==> page.items != [] && page.next == Some(EncodeCursor(end)))
            && (end == |list| ==> page.next.None?)
  {
    hide Canonical, Served;
    CursorRoundTrips(offset);
    EncodedDigits(offset);
    PageFor(list, limit, cursor, offset);
  }

  /**
   Whatever the limits, the pages give the list from its start, in order and without
   gap or repetition; the last page carries a cursor exactly when something is left.
   */
  lemma {:induction false} FollowingCursorsYieldsTheList<T>(list: seq<T>, limits: seq<Option<nat>>, pages: seq<CursorPage<T>>)
    requires |list| <= U64_MAX && Followed(list, limits, pages)
    ensures var seen := |Items(pages)|;
            && seen <= |list| && Items(pages) == list[..seen]
            && (pages[|pages| - 1].next == if seen < |list| then Some(EncodeCursor(seen)) else None)
            && (pages[|pages| - 1].hasMore <==> seen < |list|)
            && (list != [] ==> |pages| <= seen)
  {
    hide Served, EncodeCursor;
    var n := |pages| - 1;
    var before := pages[..n];
    if n == 0 {
      PageAt(list, limits[0], None, 0);
      assert Items(before) == [];
    } else {
      FollowingCursorsYieldsTheList(list, limits[..n], before);
      var seen := |Items(before)|;
      PageAt(list, limits[n], pages[n - 1].next, seen);
      assert list[..seen] + pages[n].items == list[..seen + |pages[n].items|];
    }
  }

  /** So a client always gets to the end: within as many pages as there are items, and never by way of a refused cursor. */
  lemma FollowingCursorsEnds<T>(list: seq<T>, limits: seq<Option<nat>>, pages: seq<CursorPage<T>>, limit: Option<nat>)
    requires |list| <= U64_MAX && Followed(list, limits, pages)
    ensures |pages| <= if list == [] then 1 else |list|
    ensures pages[|pages| - 1].next.None? <==> Items(pages) == list
    ensures pages[|pages| - 1].next.Some? ==> Served(list, limit, pages[|pages| - 1].next).Ok?
  {
    hide Served;
    FollowingCursorsYieldsTheList(list, limits, pages);
    var seen := |Items(pages)|;
    if pages[|pages| - 1].next.Some? {
      PageAt(list, limit, pages[|pages| - 1].next, seen);
    } else {
      assert list[..seen] == list;
    }
    if list == [] && |pages| > 1 {
      FirstPageOfEmpty(list, limits, pages);
    }
  }

  lemma FirstPageOfEmpty<T>(list: seq<T>, limits: seq<Option<nat>>, pages: seq<CursorPage<T>>)
    requires list == [] && Followed(list, limits, pages)
    ensures |pages| == 1
  {
    PageAt(list, limits[0], None, 0);
    assert pages[0].next.None?;
    assert |pages| > 1 ==> Continues(list, limits[1], pages[0], pages[1]);
  }
}
