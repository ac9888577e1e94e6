/** Query strings as ordered name and value lists: percent-encoding, parsing, and the sorted encoding. */
module Queries {
  import opened Bits
  import opened Wrappers
  import opened Ordering
  import opened Texts

  /** The parameters of a query: every name with its values in order of appearance. */
  type Values = map<Bytes, seq<Bytes>>

  const SPACE: byte := 0x20
  const PERCENT: byte := 0x25
  const AMPERSAND: byte := 0x26
  const PLUS: byte := 0x2b
  const SEMICOLON: byte := 0x3b
  const EQUALS: byte := 0x3d

  predicate IsDigit(c: byte) { 0x30 <= c <= 0x39 }
  predicate IsUpper(c: byte) { 0x41 <= c <= 0x5a }
  predicate IsLower(c: byte) { 0x61 <= c <= 0x7a }

  /** The characters section 2.3 of RFC 3986 calls unreserved: letters, digits, '-', '.', '_' and '~'. */
  predicate Unreserved(c: byte) {
    IsDigit(c) || IsUpper(c) || IsLower(c) || c == 0x2d || c == 0x2e || c == 0x5f || c == 0x7e
  }

  function Hex(n: nat): byte
    requires n < 16
  {
    if n < 10 then 0x30 + n else 0x41 + n - 10
  }

  function Unhex(c: byte): Option<nat> {
    if IsDigit(c) then Some(c - 0x30)
    else if 0x41 <= c <= 0x46 then Some(c - 0x41 + 10)
    else if 0x61 <= c <= 0x66 then Some(c - 0x61 + 10)
    else None
  }

  function EscapeByte(c: byte): Bytes {
    if Unreserved(c) then [c]
    else if c == SPACE then [PLUS]
    else [PERCENT, Hex(c / 16), Hex(c % 16)]
  }

  function Escape(s: Bytes): Bytes {
    if s == [] then [] else EscapeByte(s[0]) + Escape(s[1..])
  }

  /** Decoding fails on a '%' that two hexadecimal digits do not follow. */
  function Unescape(s: Bytes): Option<Bytes> {
    if s == [] then Some([])
    else if s[0] == PERCENT then
      if |s| < 3 || Unhex(s[1]).None? || Unhex(s[2]).None? then None
      else
        var high, low := Unhex(s[1]).value, Unhex(s[2]).value;
        Prepend((16 * high + low) % 0x100, Unescape(s[3..]))
    else Prepend(if s[0] == PLUS then SPACE else s[0], Unescape(s[1..]))
  }

  function Prepend(c: byte, rest: Option<Bytes>): Option<Bytes> {
    match rest
    case None => None
    case Some(bytes) => Some([c] + bytes)
  }

  /** The text before the first separator and the text after it; all of `s` and nothing if there is none. */
  function Cut(s: Bytes, sep: byte): (parts: (Bytes, Bytes))
    ensures sep !in parts.0
    ensures s == parts.0 + [sep] + parts.1 || (s == parts.0 && parts.1 == [])
    ensures sep in s ==> s == parts.0 + [sep] + parts.1
  {
    if s == [] then ([], [])
    else if s[0] == sep then ([], s[1..])
    else
      var (before, after) := Cut(s[1..], sep);
      ([s[0]] + before, after)
  }

  function Add(m: Values, name: Bytes, value: Bytes): Values {
    m[name := (if name in m then m[name] else []) + [value]]
  }

  /** What one '&'-separated segment contributes: nothing if it is empty, holds a ';' or does not decode. */
  function Decode(segment: Bytes): Param {
    if SEMICOLON in segment || segment == [] then None
    else
      var (key, value) := Cut(segment, EQUALS);
      match (Unescape(key), Unescape(value))
      case (Some(k), Some(v)) => Some((k, v))
      case _ => None
  }

  /** A decoded segment, None if it contributes nothing. */
  type Param = Option<(Bytes, Bytes)>

  function AddParam(param: Param, m: Values): Values {
    match param
    case None => m
    case Some(pair) => Add(m, pair.0, pair.1)
  }

  function ParseFrom(query: Bytes, m: Values): Values
    decreases |query|
  {
    if query == [] then m
    else
      var (segment, rest) := Cut(query, AMPERSAND);
      ParseFrom(rest, AddParam(Decode(segment), m))
  }

  function ParseQuery(query: Bytes): Values {
    ParseFrom(query, map[])
  }

  const BYTE_LT: (byte, byte) -> bool := (x: byte, y: byte) => x < y
  const BYTES_LT: (Bytes, Bytes) -> bool := (a: Bytes, b: Bytes) => LexLt(BYTE_LT, a, b)

  lemma BytesOrdered()
    ensures StrictTotal(BYTES_LT)
  {
    LexStrictTotal(BYTE_LT, BYTES_LT);
  }

  /** The order compares bytes as numbers. */
  lemma {:induction false} BytesOrderMeans(a: Bytes, b: Bytes)
    ensures BYTES_LT(a, b) <==> Precedes(a, b)
  {
    if a == [] {
      assert SameUpTo(a, b, 0);
    } else if b != [] {
      assert a == [a[0]] + a[1..] && b == [b[0]] + b[1..];
      if a[0] == b[0] {
        BytesOrderMeans(a[1..], b[1..]);
        PrecedesCons(a[0], a[1..], b[1..]);
      } else {
        assert SameUpTo(a, b, 0);
      }
    }
  }

  function EncodePair(name: Bytes, value: Bytes): Bytes {
    Escape(name) + [EQUALS] + Escape(value)
  }

  function EncodeName(name: Bytes, values: seq<Bytes>): seq<Bytes> {
    if values == [] then [] else [EncodePair(name, values[0])] + EncodeName(name, values[1..])
  }

  function EncodeNames(names: seq<Bytes>, m: Values): seq<Bytes>
    requires forall n :: n in names ==> n in m
  {
    if names == [] then [] else EncodeName(names[0], m[names[0]]) + EncodeNames(names[1..], m)
  }

  function Join(segments: seq<Bytes>): Bytes {
    if segments == [] then []
    else if |segments| == 1 then segments[0]
    else segments[0] + [AMPERSAND] + Join(segments[1..])
  }

  /** The listing goes up in the order of bytes as numbers. */
  ghost predicate InOrder(names: seq<Bytes>) {
    forall i, j | 0 <= i < j < |names| :: Precedes(names[i], names[j])
  }

  lemma AscendingInOrder(names: seq<Bytes>)
    ensures Ascending(BYTES_LT, names) <==> InOrder(names)
  {
    forall i, j | 0 <= i < j < |names| ensures BYTES_LT(names[i], names[j]) <==> Precedes(names[i], names[j]) {
      BytesOrderMeans(names[i], names[j]);
    }
  }

  /** The names in ascending byte order, each once. */
  function SortedNames(m: Values): (r: seq<Bytes>)
    ensures forall n :: n in r <==> n in m
    ensures InOrder(r) && NoRepeats(r)
  {
    BytesOrdered();
    var r := SortedSeq(BYTES_LT, m.Keys);
    assert forall i, j | 0 <= i < j < |r| :: BYTES_LT(r[i], r[j]);
    AscendingInOrder(r);
    r
  }

  /** No other listing of the names goes up, so the encoding of a set of parameters is determined by it. */
  lemma SortedNamesOnly(m: Values, names: seq<Bytes>)
    requires InOrder(names) && forall n :: n in names <==> n in m
    ensures names == SortedNames(m)
  {
    BytesOrdered();
    AscendingInOrder(names);
    AscendingInOrder(SortedNames(m));
    AscendingUnique(BYTES_LT, names, SortedNames(m));
  }

  function Encode(m: Values): Bytes {
    Join(EncodeNames(SortedNames(m), m))
  }

  // ---- Percent-encoding ----

  lemma HexRoundTrip(n: nat)
    requires n < 16
    ensures Unhex(Hex(n)) == Some(n)
  {
  }

  lemma UnescapeDigits(high: byte, low: byte, h: nat, l: nat, rest: Bytes)
    requires Unhex(high) == Some(h) && Unhex(low) == Some(l) && h < 16 && l < 16
    ensures Unescape([PERCENT, high, low] + rest) == Prepend(16 * h + l, Unescape(rest))
  {
    assert ([PERCENT, high, low] + rest)[3..] == rest;
  }

  lemma UnescapePlain(c: byte, rest: Bytes)
    requires c != PERCENT
    ensures Unescape([c] + rest) == Prepend(if c == PLUS then SPACE else c, Unescape(rest))
  {
    assert ([c] + rest)[1..] == rest;
  }

  /** Escaped text decodes to the original... */
  lemma {:induction false} UnescapeEscape(s: Bytes)
    ensures Unescape(Escape(s)) == Some(s)
  {
    if s != [] {
      UnescapeEscape(s[1..]);
      UnescapeEscapedByte(s[0], Escape(s[1..]));
      assert Escape(s) == EscapeByte(s[0]) + Escape(s[1..]);
      assert [s[0]] + s[1..] == s;
    }
  }

  lemma UnescapeEscapedByte(c: byte, rest: Bytes)
    ensures Unescape(EscapeByte(c) + rest) == Prepend(c, Unescape(rest))
  {
    if Unreserved(c) {
      UnescapePlain(c, rest);
    } else if c == SPACE {
      UnescapePlain(PLUS, rest);
    } else {
      HexRoundTrip(c / 16);
      HexRoundTrip(c % 16);
      UnescapeDigits(Hex(c / 16), Hex(c % 16), c / 16, c % 16, rest);
    }
  }

  /** ... and never contains a delimiter of the query grammar. */
  lemma {:induction false} EscapeHidesDelimiters(s: Bytes)
    ensures AMPERSAND !in Escape(s) && SEMICOLON !in Escape(s) && EQUALS !in Escape(s)
  {
    if s != [] {
      EscapeHidesDelimiters(s[1..]);
    }
  }

  lemma DecodeEncodedPair(name: Bytes, value: Bytes)
    ensures Decode(EncodePair(name, value)) == Some((name, value))
    ensures AMPERSAND !in EncodePair(name, value)
  {
    UnescapeEscape(name);
    UnescapeEscape(value);
    EscapeHidesDelimiters(name);
    EscapeHidesDelimiters(value);
    CutAtFirst(Escape(name), Escape(value), EQUALS);
  }

  lemma {:induction false} CutAtFirst(before: Bytes, after: Bytes, sep: byte)
    requires sep !in before
    ensures Cut(before + [sep] + after, sep) == (before, after)
  {
    var s := before + [sep] + after;
    if before == [] {
      assert s[1..] == after;
    } else {
      CutAtFirst(before[1..], after, sep);
      assert s[1..] == before[1..] + [sep] + after;
      assert before == [before[0]] + before[1..];
    }
  }

  lemma {:induction false} CutNowhere(s: Bytes, sep: byte)
    requires sep !in s
    ensures Cut(s, sep) == (s, [])
  {
    if s != [] {
      CutNowhere(s[1..], sep);
      assert s == [s[0]] + s[1..];
    }
  }

  // ---- Segments ----

  ghost predicate Separable(segments: seq<Bytes>) {
    forall s | s in segments :: AMPERSAND !in s
  }

  function Params(segments: seq<Bytes>): (r: seq<Param>)
    ensures |r| == |segments|
    ensures forall i | 0 <= i < |r| :: r[i] == Decode(segments[i])
  {
    seq(|segments|, i requires 0 <= i < |segments| => Decode(segments[i]))
  }

  function AddAll(params: seq<Param>, m: Values): Values {
    if params == [] then m else AddAll(params[1..], AddParam(params[0], m))
  }

  lemma {:induction false} ParseJoin(segments: seq<Bytes>, m: Values)
    requires Separable(segments)
    ensures ParseFrom(Join(segments), m) == AddAll(Params(segments), m)
  {
    if segments != [] {
      assert Params(segments)[1..] == Params(segments[1..]);
      ParseJoin(segments[1..], AddParam(Decode(segments[0]), m));
      if |segments| == 1 {
        CutNowhere(segments[0], AMPERSAND);
        assert Decode([]) == None;
      } else {
        CutAtFirst(segments[0], Join(segments[1..]), AMPERSAND);
      }
    }
  }

  /** The '&'-separated segments of a query. */
  function Segments(query: Bytes): (r: seq<Bytes>)
    ensures forall s | s in r :: AMPERSAND !in s
    ensures r != [] && Join(r) == query
    decreases |query|
  {
    if AMPERSAND in query then
      var (segment, rest) := Cut(query, AMPERSAND);
      [segment] + Segments(rest)
    else [query]
  }

  function ValueIn(p: Param, name: Bytes): seq<Bytes> {
    if p.Some? && p.value.0 == name then [p.value.1] else []
  }

  /** The values a parameter list gives one name, in order. */
  function ValuesOf(params: seq<Param>, name: Bytes): seq<Bytes> {
    if params == [] then [] else ValueIn(params[0], name) + ValuesOf(params[1..], name)
  }

  /** The parameters of a query in order of appearance. */
  function QueryParams(query: Bytes): seq<Param> {
    Params(Segments(query))
  }

  function Lookup(m: Values, name: Bytes): seq<Bytes> {
    if name in m then m[name] else []
  }

  ghost predicate NoEmptyLists(m: Values) {
    forall k | k in m :: m[k] != []
  }

  lemma {:induction false} AddAllLookup(params: seq<Param>, m: Values, name: Bytes)
    requires NoEmptyLists(m)
    ensures NoEmptyLists(AddAll(params, m))
    ensures Lookup(AddAll(params, m), name) == Lookup(m, name) + ValuesOf(params, name)
  {
    if params != [] {
      AddAllLookup(params[1..], AddParam(params[0], m), name);
    }
  }

  /** Parsing collects, for every name, exactly the values its segments carry. */
  lemma ParsedValues(query: Bytes, name: Bytes)
    ensures NoEmptyLists(ParseQuery(query))
    ensures Lookup(ParseQuery(query), name) == ValuesOf(QueryParams(query), name)
  {
    ParseJoin(Segments(query), map[]);
    AddAllLookup(QueryParams(query), map[], name);
  }

  lemma SameLookups(m1: Values, m2: Values)
    requires NoEmptyLists(m1) && NoEmptyLists(m2)
    requires forall k :: Lookup(m1, k) == Lookup(m2, k)
    ensures m1 == m2
  {
    forall k ensures k in m1 <==> k in m2 {
      assert Lookup(m1, k) == Lookup(m2, k);
    }
    forall k | k in m1 ensures m1[k] == m2[k] {
      assert Lookup(m1, k) == Lookup(m2, k);
    }
  }

  // ---- The round trip ----

  lemma ValuesOfCons(p: Param, params: seq<Param>, name: Bytes)
    ensures ValuesOf([p] + params, name) == ValueIn(p, name) + ValuesOf(params, name)
  {
    assert ([p] + params)[1..] == params;
  }

  lemma Regroup<T>(a: seq<T>, b: seq<T>, c: seq<T>)
    ensures a + (b + c) == (a + b) + c
  {
  }

  lemma {:induction false} ValuesOfAppend(a: seq<Param>, b: seq<Param>, name: Bytes)
    ensures ValuesOf(a + b, name) == ValuesOf(a, name) + ValuesOf(b, name)
  {
    if a == [] {
      assert a + b == b;
    } else {
      ValuesOfAppend(a[1..], b, name);
      assert a + b == [a[0]] + (a[1..] + b);
      ValuesOfCons(a[0], a[1..] + b, name);
      Regroup(ValueIn(a[0], name), ValuesOf(a[1..], name), ValuesOf(b, name));
    }
  }

  /** The parameters an encoded name carries: the name with each of its values. */
  function Pairs(name: Bytes, values: seq<Bytes>): seq<Param> {
    if values == [] then [] else [Some((name, values[0]))] + Pairs(name, values[1..])
  }

  lemma {:induction false} EncodeNameDecodes(name: Bytes, values: seq<Bytes>)
    ensures Separable(EncodeName(name, values))
    ensures Params(EncodeName(name, values)) == Pairs(name, values)
  {
    if values != [] {
      DecodeEncodedPair(name, values[0]);
      EncodeNameDecodes(name, values[1..]);
    }
  }

  lemma {:induction false} ValuesOfPairs(name: Bytes, values: seq<Bytes>, k: Bytes)
    ensures ValuesOf(Pairs(name, values), k) == if k == name then values else []
  {
    if values != [] {
      ValuesOfPairs(name, values[1..], k);
      assert Pairs(name, values)[1..] == Pairs(name, values[1..]);
    }
  }

  /** The parameters of a whole encoded query. */
  function AllPairs(names: seq<Bytes>, m: Values): seq<Param>
    requires forall n :: n in names ==> n in m
  {
    if names == [] then [] else Pairs(names[0], m[names[0]]) + AllPairs(names[1..], m)
  }

  lemma {:induction false} EncodeNamesDecode(names: seq<Bytes>, m: Values)
    requires forall n :: n in names ==> n in m
    ensures Separable(EncodeNames(names, m))
    ensures Params(EncodeNames(names, m)) == AllPairs(names, m)
  {
    if names != [] {
      EncodeNameDecodes(names[0], m[names[0]]);
      EncodeNamesDecode(names[1..], m);
      ParamsAppend(EncodeName(names[0], m[names[0]]), EncodeNames(names[1..], m));
    }
  }

  lemma ParamsAppend(a: seq<Bytes>, b: seq<Bytes>)
    ensures Params(a + b) == Params(a) + Params(b)
  {
  }

  lemma {:induction false} ValuesOfAllPairs(names: seq<Bytes>, m: Values, k: Bytes)
    requires NoRepeats(names) && forall n :: n in names ==> n in m
    ensures ValuesOf(AllPairs(names, m), k) == if k in names then m[k] else []
  {
    if names != [] {
      var first, rest := names[0], names[1..];
      ValuesOfAppend(Pairs(first, m[first]), AllPairs(rest, m), k);
      ValuesOfPairs(first, m[first], k);
      ValuesOfAllPairs(rest, m, k);
    }
  }

  /** Encoding then parsing gives back every parameter list. */
  lemma ParseEncode(m: Values)
    requires NoEmptyLists(m)
    ensures ParseQuery(Encode(m)) == m
  {
    var names := SortedNames(m);
    var pairs := AllPairs(names, m);
    EncodeNamesDecode(names, m);
    ParseJoin(EncodeNames(names, m), map[]);
    AddAllLookup(pairs, map[], []);
    forall k ensures Lookup(AddAll(pairs, map[]), k) == Lookup(m, k) {
      AddAllLookup(pairs, map[], k);
      ValuesOfAllPairs(names, m, k);
    }
    SameLookups(AddAll(pairs, map[]), m);
  }

  // ---- What the encoding means ----

  lemma Uppers(c: byte)
    ensures IsUpper(c) <==> OneOf(c as char, "ABCDEFGHIJKLMNOPQRSTUVWXYZ")
  {
    if IsUpper(c) {
      assert "ABCDEFGHIJKLMNOPQRSTUVWXYZ"[c - 0x41] as int == c;
    }
  }

  lemma Lowers(c: byte)
    ensures IsLower(c) <==> OneOf(c as char, "abcdefghijklmnopqrstuvwxyz")
  {
    if IsLower(c) {
      assert "abcdefghijklmnopqrstuvwxyz"[c - 0x61] as int == c;
    }
  }

  lemma DigitsAndMarks(c: byte)
    ensures IsDigit(c) <==> OneOf(c as char, "0123456789")
    ensures c == 0x2d || c == 0x2e || c == 0x5f || c == 0x7e <==> OneOf(c as char, "-._~")
  {
    if IsDigit(c) {
      assert "0123456789"[c - 0x30] as int == c;
    }
    assert "-._~"[0] as int == 0x2d && "-._~"[1] as int == 0x2e && "-._~"[2] as int == 0x5f && "-._~"[3] as int == 0x7e;
  }

  /** A byte is escaped by itself if it is a letter, a digit or one of four marks, by '+' if it is a space, and otherwise
      by '%' and two upper-case hexadecimal digits. */
  lemma EscapeExactly(c: byte)
    ensures Escape([c]) ==
            if OneOf(c as char, "ABCDEFGHIJKLMNOPQRSTUVWXYZ") || OneOf(c as char, "abcdefghijklmnopqrstuvwxyz")
               || OneOf(c as char, "0123456789") || OneOf(c as char, "-._~") then [c]
            else if c == ' ' as int then ['+' as int]
            else ['%' as int, "0123456789ABCDEF"[c / 16] as int, "0123456789ABCDEF"[c % 16] as int]
  {
    Uppers(c);
    Lowers(c);
    DigitsAndMarks(c);
    assert [c][1..] == [];
  }

  lemma EscapeCons(c: byte, s: Bytes)
    ensures Escape([c] + s) == EscapeByte(c) + Escape(s)
  {
    assert ([c] + s)[1..] == s;
  }

  lemma {:induction false} EscapeAppends(a: Bytes, b: Bytes)
    ensures Escape(a + b) == Escape(a) + Escape(b)
  {
    if a == [] {
      assert a + b == b;
    } else {
      EscapeAppends(a[1..], b);
      assert a + b == [a[0]] + (a[1..] + b);
      EscapeCons(a[0], a[1..] + b);
      Regroup(EscapeByte(a[0]), Escape(a[1..]), Escape(b));
    }
  }

  ghost predicate HexDigit(c: byte, n: int) {
    0 <= n < 16 && (c == "0123456789abcdef"[n] as int || c == "0123456789ABCDEF"[n] as int)
  }

  lemma UnhexExactly(c: byte, n: nat)
    ensures Unhex(c) == Some(n) <==> HexDigit(c, n)
  {
  }

  /** A piece of escaped text and the byte it stands for. */
  datatype Piece = Piece(text: Bytes, value: byte)

  ghost predicate Spelled(p: Piece) {
    || (|p.text| == 1 && p.text[0] != '%' as int && p.value == if p.text[0] == '+' as int then ' ' as int else p.text[0])
    || (|p.text| == 3 && p.text[0] == '%' as int
        && exists h, l :: HexDigit(p.text[1], h) && HexDigit(p.text[2], l) && p.value == 16 * h + l)
  }

  ghost predicate AllSpelled(pieces: seq<Piece>) {
    forall i | 0 <= i < |pieces| :: Spelled(pieces[i])
  }

  function TextOf(pieces: seq<Piece>): Bytes {
    if pieces == [] then [] else pieces[0].text + TextOf(pieces[1..])
  }

  function ValueOf(pieces: seq<Piece>): Bytes {
    if pieces == [] then [] else [pieces[0].value] + ValueOf(pieces[1..])
  }

  ghost predicate Spells(s: Bytes, bytes: Bytes) {
    exists pieces :: AllSpelled(pieces) && TextOf(pieces) == s && ValueOf(pieces) == bytes
  }

  lemma SpellsMore(p: Piece, s: Bytes, bytes: Bytes)
    requires Spelled(p) && Spells(s, bytes)
    ensures Spells(p.text + s, [p.value] + bytes)
  {
    var pieces :| AllSpelled(pieces) && TextOf(pieces) == s && ValueOf(pieces) == bytes;
    assert ([p] + pieces)[1..] == pieces;
    assert AllSpelled([p] + pieces);
  }

  /** The piece with which an unescapable text begins. */
  lemma FirstPiece(s: Bytes) returns (p: Piece)
    requires s != [] && Unescape(s).Some?
    ensures Spelled(p) && p.text <= s
    ensures Unescape(s[|p.text|..]).Some? && Unescape(s) == Some([p.value] + Unescape(s[|p.text|..]).value)
  {
    if s[0] == PERCENT {
      UnhexExactly(s[1], Unhex(s[1]).value);
      UnhexExactly(s[2], Unhex(s[2]).value);
      p := Piece(s[..3], 16 * Unhex(s[1]).value + Unhex(s[2]).value);
    } else {
      p := Piece(s[..1], if s[0] == PLUS then SPACE else s[0]);
    }
  }

  lemma {:induction false} UnescapedIsSpelled(s: Bytes)
    requires Unescape(s).Some?
    ensures Spells(s, Unescape(s).value)
  {
    if s == [] {
      assert AllSpelled([]) && TextOf([]) == s;
    } else {
      var p := FirstPiece(s);
      UnescapedIsSpelled(s[|p.text|..]);
      SpellsMore(p, s[|p.text|..], Unescape(s[|p.text|..]).value);
      assert p.text + s[|p.text|..] == s;
      assert Unescape(s).value == [p.value] + Unescape(s[|p.text|..]).value;
    }
  }

  lemma UnescapeCoded(percent: byte, high: byte, low: byte, value: byte, rest: Bytes)
    requires percent == PERCENT && exists h, l :: HexDigit(high, h) && HexDigit(low, l) && value == 16 * h + l
    ensures Unescape([percent, high, low] + rest) == Prepend(value, Unescape(rest))
  {
    var h, l :| HexDigit(high, h) && HexDigit(low, l) && value == 16 * h + l;
    UnhexExactly(high, h);
    UnhexExactly(low, l);
    UnescapeDigits(high, low, h, l, rest);
  }

  lemma UnescapePiece(p: Piece, rest: Bytes)
    requires Spelled(p)
    ensures Unescape(p.text + rest) == Prepend(p.value, Unescape(rest))
  {
    if |p.text| == 3 {
      assert p.text == [p.text[0], p.text[1], p.text[2]];
      UnescapeCoded(p.text[0], p.text[1], p.text[2], p.value, rest);
    } else {
      assert p.text == [p.text[0]];
      UnescapePlain(p.text[0], rest);
    }
  }

  lemma {:induction false} SpelledUnescapes(pieces: seq<Piece>)
    requires AllSpelled(pieces)
    ensures Unescape(TextOf(pieces)) == Some(ValueOf(pieces))
  {
    if pieces != [] {
      SpelledUnescapes(pieces[1..]);
      UnescapePiece(pieces[0], TextOf(pieces[1..]));
    }
  }

  /** A text unescapes to `bytes` exactly when it spells them: piece by piece, '+' for a space, '%' and two hexadecimal
      digits of either case for any byte, and every character but '%' for itself. */
  lemma UnescapeExactly(s: Bytes, bytes: Bytes)
    ensures Unescape(s) == Some(bytes) <==> Spells(s, bytes)
  {
    if Unescape(s) == Some(bytes) {
      UnescapedIsSpelled(s);
    }
    if Spells(s, bytes) {
      var pieces :| AllSpelled(pieces) && TextOf(pieces) == s && ValueOf(pieces) == bytes;
      SpelledUnescapes(pieces);
    }
  }

  /** A segment is a name and a value around its first '=', or a name alone. */
  ghost predicate Divides(segment: Bytes, key: Bytes, value: Bytes) {
    '=' as int !in key && (segment == key + ['=' as int] + value || (segment == key && value == []))
  }

  /** A segment carries a parameter exactly when it is not empty, holds no ';', and its two sides spell name and value. */
  lemma DecodeExactly(segment: Bytes, name: Bytes, value: Bytes)
    ensures Decode(segment) == Some((name, value)) <==>
            segment != [] && ';' as int !in segment
            && exists k, v :: Divides(segment, k, v) && Spells(k, name) && Spells(v, value)
  {
    var (key, val) := Cut(segment, EQUALS);
    assert Divides(segment, key, val);
    UnescapeExactly(key, name);
    UnescapeExactly(val, value);
    forall k: Bytes, v: Bytes | Divides(segment, k, v) ensures k == key && v == val {
      if segment == k + ['=' as int] + v {
        CutAtFirst(k, v, EQUALS);
      } else {
        CutNowhere(k, EQUALS);
      }
    }
  }

  /** A query without '&' gives the name it carries its value, and every other name nothing. */
  lemma ParseOne(segment: Bytes, name: Bytes)
    requires AMPERSAND !in segment
    ensures Lookup(ParseQuery(segment), name) ==
            if Decode(segment).Some? && Decode(segment).value.0 == name then [Decode(segment).value.1] else []
  {
    ParsedValues(segment, name);
    assert Segments(segment) == [segment];
    assert QueryParams(segment)[1..] == [];
  }

  /** Of two queries with an '&' between them, the values of the first come first. */
  lemma ParseAppends(first: Bytes, second: Bytes, name: Bytes)
    ensures Lookup(ParseQuery(first + [AMPERSAND] + second), name) ==
            Lookup(ParseQuery(first), name) + Lookup(ParseQuery(second), name)
  {
    var query := first + [AMPERSAND] + second;
    SegmentsAppend(first, second);
    ParsedValues(first, name);
    ParsedValues(second, name);
    ParsedValues(query, name);
    ParamsAppend(Segments(first), Segments(second));
    ValuesOfAppend(QueryParams(first), QueryParams(second), name);
  }

  lemma {:induction false} SegmentsJoin(segments: seq<Bytes>)
    requires segments != [] && Separable(segments)
    ensures Segments(Join(segments)) == segments
  {
    if |segments| == 1 {
      assert segments == [segments[0]];
    } else {
      CutAtFirst(segments[0], Join(segments[1..]), AMPERSAND);
      SegmentsJoin(segments[1..]);
      assert segments == [segments[0]] + segments[1..];
    }
  }

  lemma {:induction false} JoinAppend(a: seq<Bytes>, b: seq<Bytes>)
    requires a != [] && b != []
    ensures Join(a + b) == Join(a) + [AMPERSAND] + Join(b)
  {
    assert (a + b)[1..] == a[1..] + b;
    if |a| > 1 {
      JoinAppend(a[1..], b);
    } else {
      assert a[1..] + b == b;
    }
  }

  lemma SegmentsAppend(first: Bytes, second: Bytes)
    ensures Segments(first + [AMPERSAND] + second) == Segments(first) + Segments(second)
  {
    JoinAppend(Segments(first), Segments(second));
    SegmentsJoin(Segments(first) + Segments(second));
  }

  // ---- The text of an encoding ----

  /** "name=value&name=value", each side escaped. */
  function PairsText(pairs: seq<(Bytes, Bytes)>): Bytes {
    if pairs == [] then []
    else
      Escape(pairs[0].0) + ['=' as int] + Escape(pairs[0].1)
      + if |pairs| == 1 then [] else ['&' as int] + PairsText(pairs[1..])
  }

  function Given(pairs: seq<(Bytes, Bytes)>): seq<Param> {
    seq(|pairs|, i requires 0 <= i < |pairs| => Some(pairs[i]))
  }

  function PairsSegments(pairs: seq<(Bytes, Bytes)>): seq<Bytes> {
    seq(|pairs|, i requires 0 <= i < |pairs| => EncodePair(pairs[i].0, pairs[i].1))
  }

  lemma {:induction false} JoinedPairs(pairs: seq<(Bytes, Bytes)>)
    ensures Join(PairsSegments(pairs)) == PairsText(pairs)
  {
    if pairs != [] {
      JoinedPairs(pairs[1..]);
      assert PairsSegments(pairs)[1..] == PairsSegments(pairs[1..]);
    }
  }

  function Named(name: Bytes, values: seq<Bytes>): seq<(Bytes, Bytes)> {
    seq(|values|, i requires 0 <= i < |values| => (name, values[i]))
  }

  function Listed(names: seq<Bytes>, m: Values): seq<(Bytes, Bytes)>
    requires forall n :: n in names ==> n in m
  {
    if names == [] then [] else Named(names[0], m[names[0]]) + Listed(names[1..], m)
  }

  lemma PairsAppend(a: seq<(Bytes, Bytes)>, b: seq<(Bytes, Bytes)>)
    ensures PairsSegments(a + b) == PairsSegments(a) + PairsSegments(b)
    ensures Given(a + b) == Given(a) + Given(b)
  {
    GivenAppend(a, b);
    SegmentsOfPairsAppend(a, b);
  }

  lemma GivenAppend(a: seq<(Bytes, Bytes)>, b: seq<(Bytes, Bytes)>)
    ensures Given(a + b) == Given(a) + Given(b)
  {
  }

  lemma SegmentsOfPairsAppend(a: seq<(Bytes, Bytes)>, b: seq<(Bytes, Bytes)>)
    ensures PairsSegments(a + b) == PairsSegments(a) + PairsSegments(b)
  {
  }

  lemma {:induction false} NamedSegments(name: Bytes, values: seq<Bytes>)
    ensures PairsSegments(Named(name, values)) == EncodeName(name, values)
    ensures Given(Named(name, values)) == Pairs(name, values)
  {
    if values != [] {
      NamedSegments(name, values[1..]);
      assert Named(name, values) == [(name, values[0])] + Named(name, values[1..]);
      PairsAppend([(name, values[0])], Named(name, values[1..]));
    }
  }

  lemma {:induction false} ListedSegments(names: seq<Bytes>, m: Values)
    requires forall n :: n in names ==> n in m
    ensures PairsSegments(Listed(names, m)) == EncodeNames(names, m)
    ensures Given(Listed(names, m)) == AllPairs(names, m)
  {
    if names != [] {
      var first, rest := Named(names[0], m[names[0]]), Listed(names[1..], m);
      NamedSegments(names[0], m[names[0]]);
      ListedSegments(names[1..], m);
      PairsAppend(first, rest);
    }
  }

  ghost predicate GroupedInOrder(pairs: seq<(Bytes, Bytes)>) {
    forall i, j | 0 <= i < j < |pairs| :: pairs[i].0 == pairs[j].0 || Precedes(pairs[i].0, pairs[j].0)
  }

  lemma {:induction false} ListedInOrder(names: seq<Bytes>, m: Values)
    requires InOrder(names) && forall n :: n in names ==> n in m
    ensures GroupedInOrder(Listed(names, m))
    ensures forall i | 0 <= i < |Listed(names, m)| :: Listed(names, m)[i].0 in names
  {
    if names != [] {
      ListedInOrder(names[1..], m);
    }
  }

  /** The encoding spells out the parameters with their names in the order of bytes and the values of a name in theirs. */
  lemma EncodeExactly(m: Values) returns (pairs: seq<(Bytes, Bytes)>)
    requires NoEmptyLists(m)
    ensures Encode(m) == PairsText(pairs) && GroupedInOrder(pairs)
    ensures forall name :: ValuesOf(Given(pairs), name) == Lookup(m, name)
  {
    var names := SortedNames(m);
    pairs := Listed(names, m);
    ListedSegments(names, m);
    ListedInOrder(names, m);
    JoinedPairs(pairs);
    forall name ensures ValuesOf(Given(pairs), name) == Lookup(m, name) {
      ValuesOfAllPairs(names, m, name);
    }
  }
}
