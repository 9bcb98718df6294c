/**
 Query parameters of a request: percent-decoding and the lookup of a parameter by
 name, as the inverse of every encoder that escapes `%` and `&`.
 */
module QueryString {
  import opened Wrappers

  type Byte = b: int | 0 <= b < 256

  type Bytes = seq<Byte>

  const PERCENT: Byte := 37
  const AMPERSAND: Byte := 38
  const EQUALS: Byte := 61

  /** The value of a hexadecimal digit in either case. */
  function HexVal(b: Byte): (r: Option<nat>)
    ensures r.Some? ==> r.value < 16 && b != PERCENT && b != AMPERSAND
  {
    if 48 <= b <= 57 then Some(b - 48)
    else if 97 <= b <= 102 then Some(b - 97 + 10)
    else if 65 <= b <= 70 then Some(b - 65 + 10)
    else None
  }

  /** `0` to `9` and then the letters of either case. */
  lemma HexValIs(b: Byte, n: nat)
    ensures HexVal(b) == Some(n) <==> n < 16 && (b as char == "0123456789abcdef"[n] || b as char == "0123456789ABCDEF"[n])
  {
  }

  /** An escape starts here: `%` and two hexadecimal digits. */
  predicate Escaped(s: Bytes) {
    2 < |s| && s[0] == PERCENT && HexVal(s[1]).Some? && HexVal(s[2]).Some?
  }

  function EscapedByte(s: Bytes): Byte
    requires Escaped(s)
  {
    16 * HexVal(s[1]).value + HexVal(s[2]).value
  }

  /** What decoding gives: escapes replaced from left to right, anything else kept. */
  function Decoded(s: Bytes): Bytes {
    if s == [] then []
    else if Escaped(s) then [EscapedByte(s)] + Decoded(s[3..])
    else [s[0]] + Decoded(s[1..])
  }

  lemma DecodeEscape(s: Bytes, i: nat)
    requires i + 2 < |s| && s[i] == PERCENT && HexVal(s[i + 1]).Some? && HexVal(s[i + 2]).Some?
    ensures Decoded(s[i..]) == [16 * HexVal(s[i + 1]).value + HexVal(s[i + 2]).value] + Decoded(s[i + 3..])
  {
    assert s[i..][3..] == s[i + 3..];
  }

  lemma DecodePlain(s: Bytes, i: nat)
    requires i < |s| && !(i + 2 < |s| && s[i] == PERCENT && HexVal(s[i + 1]).Some? && HexVal(s[i + 2]).Some?)
    ensures Decoded(s[i..]) == [s[i]] + Decoded(s[i + 1..])
  {
    assert s[i..][1..] == s[i + 1..];
  }

  method PercentDecode(input: Bytes) returns (out: Bytes)
    ensures out == Decoded(input)
  {
    hide Decoded, HexVal;
    out := [];
    var i := 0;
    assert input[0..] == input;
    while i < |input|
      invariant i <= |input| && out + Decoded(input[i..]) == Decoded(input)
      decreases |input| - i
    {
      if input[i] == PERCENT && i + 2 < |input| {
        var hi, lo := HexVal(input[i + 1]), HexVal(input[i + 2]);
        if hi.Some? && lo.Some? {
          DecodeEscape(input, i);
          out := out + [16 * hi.value + lo.value];
          i := i + 3;
          continue;
        }
      }
      DecodePlain(input, i);
      out := out + [input[i]];
      i := i + 1;
    }
    assert input[i..] == [];
    DecodeNothing();
  }

  lemma DecodeNothing()
    ensures Decoded([]) == []
  {
  }

  /**
   `e` is a percent-encoding of `v` (section 2.1 of RFC 3986) that escapes at least
   `%` and `&`; which other bytes are escaped, and in which case, is free.
   */
  predicate Encodes(v: Bytes, e: Bytes) {
    if v == [] then e == []
    else if e == [] then false
    else
      || (e[0] == v[0] && v[0] != PERCENT && v[0] != AMPERSAND && Encodes(v[1..], e[1..]))
      || (Escaped(e) && EscapedByte(e) == v[0] && Encodes(v[1..], e[3..]))
  }

  /** Decoding inverts every such encoding. */
  lemma {:induction false} DecodeInverts(v: Bytes, e: Bytes)
    requires Encodes(v, e)
    ensures Decoded(e) == v
  {
    if v != [] {
      if e[0] == v[0] && v[0] != PERCENT && v[0] != AMPERSAND && Encodes(v[1..], e[1..]) {
        DecodeInverts(v[1..], e[1..]);
      } else {
        DecodeInverts(v[1..], e[3..]);
      }
    }
  }

  /** No encoding contains the separator. */
  lemma {:induction false} EncodingHasNoSeparator(v: Bytes, e: Bytes)
    requires Encodes(v, e)
    ensures AMPERSAND !in e
  {
    if v != [] {
      if e[0] == v[0] && v[0] != PERCENT && v[0] != AMPERSAND && Encodes(v[1..], e[1..]) {
        EncodingHasNoSeparator(v[1..], e[1..]);
        assert e == [e[0]] + e[1..];
      } else {
        EncodingHasNoSeparator(v[1..], e[3..]);
        assert e == [e[0], e[1], e[2]] + e[3..];
      }
    }
  }

  function Digit(n: nat): (b: Byte)
    requires n < 16
    ensures HexVal(b) == Some(n)
  {
    if n < 10 then 48 + n else 65 + n - 10
  }

  /** The encoder that escapes every byte. */
  function EncodeAll(v: Bytes): (e: Bytes)
    ensures Encodes(v, e)
  {
    if v == [] then [] else
      var rest := EncodeAll(v[1..]);
      var e := [PERCENT, Digit(v[0] / 16), Digit(v[0] % 16)] + rest;
      assert e[3..] == rest;
      e
  }

  predicate HexDigit(b: Byte) {
    b as char in "0123456789abcdefABCDEF"
  }

  predicate EscapeAt(s: Bytes, i: nat) {
    i + 2 < |s| && s[i] == '%' as int && HexDigit(s[i + 1]) && HexDigit(s[i + 2])
  }

  /** Somewhere there is a `%` with two hexadecimal digits. */
  predicate HasEscape(s: Bytes) {
    exists i :: 0 <= i < |s| && EscapeAt(s, i)
  }

  lemma HexDigitIs(b: Byte)
    ensures HexDigit(b) <==> HexVal(b).Some?
  {
    if HexVal(b).Some? {
      HexValIs(b, HexVal(b).value);
    }
  }

  lemma HasEscapeNext(s: Bytes)
    requires s != []
    ensures HasEscape(s) <==> Escaped(s) || HasEscape(s[1..])
  {
    hide HexVal, HexDigit;
    if |s| > 2 {
      HexDigitIs(s[1]);
      HexDigitIs(s[2]);
    }
    assert Escaped(s) <==> EscapeAt(s, 0);
    forall i: nat | 0 < i < |s| ensures EscapeAt(s, i) <==> EscapeAt(s[1..], i - 1) {
    }
    if HasEscape(s[1..]) {
      var i :| 0 <= i < |s[1..]| && EscapeAt(s[1..], i);
      assert EscapeAt(s, i + 1);
    }
  }

  /** A value sent as it is arrives as it is exactly when it holds no escape; `+`, for one, stays `+`. */
  lemma {:induction false} UnescapedArrivesIff(s: Bytes)
    ensures |Decoded(s)| <= |s|
    ensures Decoded(s) == s <==> !HasEscape(s)
  {
    if s != [] {
      HasEscapeNext(s);
      if Escaped(s) {
        UnescapedArrivesIff(s[3..]);
      } else {
        UnescapedArrivesIff(s[1..]);
      }
    }
  }

  // ------------------------------------------------------------------ lookup

  /** Where `b` first stands in `s`, or the length of `s`. */
  function Index(s: Bytes, b: Byte): (i: nat)
    ensures i <= |s| && b !in s[..i]
    ensures i < |s| ==> s[i] == b
  {
    if s == [] || s[0] == b then 0
    else
      var i := Index(s[1..], b);
      assert s[..i + 1] == [s[0]] + s[1..][..i];
      i + 1
  }

  function Split(s: Bytes): seq<Bytes> {
    var i := Index(s, AMPERSAND);
    if i == |s| then [s] else [s[..i]] + Split(s[i + 1..])
  }

  function SplitOnce(s: Bytes): Option<(Bytes, Bytes)> {
    var i := Index(s, EQUALS);
    if i == |s| then None else Some((s[..i], s[i + 1..]))
  }

  /** The first piece with that key, unless a piece without `=` comes earlier. */
  function Search(pieces: seq<Bytes>, name: Bytes): Option<Bytes> {
    if pieces == [] then None
    else
      match SplitOnce(pieces[0])
      case None => None
      case Some((key, value)) => if key == name then Some(Decoded(value)) else Search(pieces[1..], name)
  }

  method QueryParam(query: Option<Bytes>, name: Bytes) returns (r: Option<Bytes>)
    ensures r == if query.None? then None else Search(Split(query.value), name)
  {
    if query.None? {
      return None;
    }
    var pieces := Split(query.value);
    assert pieces[0..] == pieces;
    for i := 0 to |pieces|
      invariant Search(pieces, name) == Search(pieces[i..], name)
    {
      assert pieces[i..][1..] == pieces[i + 1..];
      var pair := SplitOnce(pieces[i]);
      if pair.None? {
        return None;
      }
      if pair.value.0 == name {
        var value := PercentDecode(pair.value.1);
        return Some(value);
      }
    }
    r := None;
  }

  /** The pieces joined with `&`. */
  function Join(pieces: seq<Bytes>): Bytes
    requires pieces != []
  {
    if |pieces| == 1 then pieces[0] else pieces[0] + ['&' as int] + Join(pieces[1..])
  }

  lemma IndexOf(a: Bytes, b: Byte, rest: Bytes)
    requires b !in a
    ensures Index(a, b) == |a|
    ensures Index(a + [b] + rest, b) == |a|
  {
    var s := a + [b] + rest;
    assert s[|a|] == b;
    assert forall k :: 0 <= k < |a| ==> s[k] == a[k];
    assert forall k :: 0 <= k < Index(s, b) ==> s[k] in s[..Index(s, b)];
  }

  lemma SplitFirst(piece: Bytes, rest: Bytes)
    requires AMPERSAND !in piece
    ensures Split(piece) == [piece]
    ensures Split(piece + [AMPERSAND] + rest) == [piece] + Split(rest)
  {
    hide Index;
    IndexOf(piece, AMPERSAND, rest);
    var s := piece + [AMPERSAND] + rest;
    assert s[..|piece|] == piece && s[|piece| + 1..] == rest;
  }

  lemma {:induction false} SplitJoin(pieces: seq<Bytes>)
    requires pieces != [] && forall p :: p in pieces ==> AMPERSAND !in p
    ensures Split(Join(pieces)) == pieces
  {
    hide Split;
    if |pieces| == 1 {
      SplitFirst(pieces[0], []);
    } else {
      SplitJoin(pieces[1..]);
      SplitFirst(pieces[0], Join(pieces[1..]));
    }
  }

  datatype Pair = Pair(key: Bytes, value: Bytes)

  /** The value of the first pair with that key. */
  function FirstValue(pairs: seq<Pair>, name: Bytes): Option<Bytes> {
    if pairs == [] then None
    else if pairs[0].key == name then Some(pairs[0].value)
    else FirstValue(pairs[1..], name)
  }

  predicate Encoded(pairs: seq<Pair>, encodings: seq<Bytes>) {
    && |encodings| == |pairs|
    && forall i :: 0 <= i < |pairs| ==> Encodes(pairs[i].value, encodings[i])
  }

  predicate PlainKeys(pairs: seq<Pair>) {
    forall p :: p in pairs ==> AMPERSAND !in p.key && EQUALS !in p.key
  }

  function Pieces(pairs: seq<Pair>, encodings: seq<Bytes>): (r: seq<Bytes>)
    requires |encodings| == |pairs|
    ensures |r| == |pairs|
  {
    seq(|pairs|, i requires 0 <= i < |pairs| => pairs[i].key + ['=' as int] + encodings[i])
  }

  /** The query string a client prints. */
  function Printed(pairs: seq<Pair>, encodings: seq<Bytes>): Bytes
    requires |encodings| == |pairs|
  {
    if pairs == [] then [] else Join(Pieces(pairs, encodings))
  }

  lemma {:induction false} SearchPieces(pairs: seq<Pair>, encodings: seq<Bytes>, name: Bytes)
    requires Encoded(pairs, encodings) && PlainKeys(pairs)
    ensures Search(Pieces(pairs, encodings), name) == FirstValue(pairs, name)
  {
    hide Index, Decoded, Encodes;
    if pairs != [] {
      var pieces := Pieces(pairs, encodings);
      SplitPiece(pairs[0].key, encodings[0]);
      DecodeInverts(pairs[0].value, encodings[0]);
      assert pieces[1..] == Pieces(pairs[1..], encodings[1..]);
      SearchPieces(pairs[1..], encodings[1..], name);
    }
  }

  lemma SplitPiece(key: Bytes, encoding: Bytes)
    requires EQUALS !in key
    ensures SplitOnce(key + [EQUALS] + encoding) == Some((key, encoding))
  {
    IndexOf(key, EQUALS, encoding);
    var s := key + [EQUALS] + encoding;
    assert s[..|key|] == key && s[|key| + 1..] == encoding;
  }

  lemma NoSeparators(pairs: seq<Pair>, encodings: seq<Bytes>)
    requires Encoded(pairs, encodings) && PlainKeys(pairs)
    ensures forall p :: p in Pieces(pairs, encodings) ==> AMPERSAND !in p
  {
    hide Encodes;
    forall i | 0 <= i < |pairs| ensures AMPERSAND !in Pieces(pairs, encodings)[i] {
      EncodingHasNoSeparator(pairs[i].value, encodings[i]);
    }
  }

  /** Printing pairs and looking a name up gives the value of the first pair with that name. */
  lemma PrintThenLookUp(pairs: seq<Pair>, encodings: seq<Bytes>, name: Bytes)
    requires Encoded(pairs, encodings) && PlainKeys(pairs)
    ensures Search(Split(Printed(pairs, encodings)), name) == FirstValue(pairs, name)
  {
    if pairs == [] {
      assert Split([]) == [[]];
    } else {
      NoSeparators(pairs, encodings);
      SplitJoin(Pieces(pairs, encodings));
      SearchPieces(pairs, encodings, name);
    }
  }

  /** The piece that answers: the first with that key, every earlier one having a `=` and another key. */
  predicate Answers(pieces: seq<Bytes>, name: Bytes, i: nat)
    requires i < |pieces|
  {
    && SplitOnce(pieces[i]).Some? && SplitOnce(pieces[i]).value.0 == name
    && forall j :: 0 <= j < i ==> SplitOnce(pieces[j]).Some? && SplitOnce(pieces[j]).value.0 != name
  }

  /** A name is found exactly when no piece before it lacks its `=`: a parameter without a value hides all later ones. */
  lemma {:induction false} FoundIffNothingValuelessBefore(pieces: seq<Bytes>, name: Bytes)
    ensures Search(pieces, name).Some? <==> exists i: nat :: i < |pieces| && Answers(pieces, name, i)
    ensures forall i: nat :: i < |pieces| && Answers(pieces, name, i) ==> Search(pieces, name) == Some(Decoded(SplitOnce(pieces[i]).value.1))
  {
    hide SplitOnce, Decoded;
    if pieces != [] && SplitOnce(pieces[0]).Some? && SplitOnce(pieces[0]).value.0 != name {
      var rest := pieces[1..];
      FoundIffNothingValuelessBefore(rest, name);
      forall i: nat | 0 < i < |pieces| ensures Answers(pieces, name, i) <==> Answers(rest, name, i - 1) {
        assert forall j :: 0 < j < i ==> pieces[j] == rest[j - 1];
      }
      if Search(rest, name).Some? {
        var i: nat :| i < |rest| && Answers(rest, name, i);
        assert Answers(pieces, name, i + 1);
      }
    } else if pieces != [] && SplitOnce(pieces[0]).Some? {
      assert Answers(pieces, name, 0);
    }
  }
}
