/** URLs and the cleaning applied to every URL before it is looked up or fetched. */
module Urls {
  import opened Bits
  import opened Queries
  import Keys

  /** Text of ASCII characters as bytes. */
  function Ascii(s: string): (r: Bytes)
    ensures |r| == |s| && forall i | 0 <= i < |s| && s[i] as int < 128 :: r[i] == s[i] as int
  {
    seq(|s|, i requires 0 <= i < |s| => s[i] as int % 0x100)
  }

  const ILLEGAL_PARAMS := [
    Ascii("utm_source"), Ascii("utm_medium"), Ascii("utm_campaign"),
    Ascii("utm_term"), Ascii("utm_content"), Ascii("utm_brand")
  ]

  ghost const ILLEGAL: set<Bytes> := set p | p in ILLEGAL_PARAMS

  /** A URL split at its query: `head` is everything before the '?', `forceQuery` records a bare trailing '?', and the
      fragment is kept in its escaped form. */
  datatype Url = Url(head: Bytes, hostname: Bytes, forceQuery: bool, rawQuery: Bytes, fragment: Bytes) {
    function Text(): Bytes {
      head
      + (if forceQuery || rawQuery != [] then [0x3f] + rawQuery else [])
      + (if fragment != [] then [0x23] + fragment else [])
    }

    function Key(): Keys.Key {
      Keys.KeyOf(hostname, Text())
    }
  }

  /** The parameters of a query that cleaning keeps. */
  ghost function Surviving(raw: Bytes): Values {
    ParseQuery(raw) - ILLEGAL
  }

  ghost function CleanQuery(raw: Bytes): Bytes {
    Encode(Surviving(raw))
  }

  ghost function Clean(u: Url): Url {
    u.(rawQuery := CleanQuery(u.rawQuery), fragment := [])
  }

  /** A parsed URL, changed in place by cleaning. */
  class URL {
    const head: Bytes
    const hostname: Bytes
    const ForceQuery: bool
    var RawQuery: Bytes
    var Fragment: Bytes

    constructor (u: Url)
      ensures Value() == u
    {
      head, hostname, ForceQuery := u.head, u.hostname, u.forceQuery;
      RawQuery, Fragment := u.rawQuery, u.fragment;
    }

    function Value(): Url
      reads this
    {
      Url(head, hostname, ForceQuery, RawQuery, Fragment)
    }
  }

  ghost predicate IsUtm(name: Bytes) {
    || name == Ascii("utm_source") || name == Ascii("utm_medium") || name == Ascii("utm_campaign")
    || name == Ascii("utm_term") || name == Ascii("utm_content") || name == Ascii("utm_brand")
  }

  lemma IllegalIsUtm(name: Bytes)
    ensures name in ILLEGAL <==> IsUtm(name)
  {
    assert ILLEGAL_PARAMS[0] == Ascii("utm_source") && ILLEGAL_PARAMS[1] == Ascii("utm_medium")
           && ILLEGAL_PARAMS[2] == Ascii("utm_campaign") && ILLEGAL_PARAMS[3] == Ascii("utm_term")
           && ILLEGAL_PARAMS[4] == Ascii("utm_content") && ILLEGAL_PARAMS[5] == Ascii("utm_brand");
  }

  /** A cleaned query spells out the parameters that are not of the utm list: the names in the order of their bytes, the
      values of a name in the order of the query. */
  ghost predicate Cleans(raw: Bytes, cleaned: Bytes) {
    exists pairs ::
      && cleaned == PairsText(pairs) && GroupedInOrder(pairs)
      && forall name :: ValuesOf(Given(pairs), name) == if IsUtm(name) then [] else Lookup(ParseQuery(raw), name)
  }

  lemma EncodedCleans(raw: Bytes)
    ensures Cleans(raw, CleanQuery(raw))
  {
    ParsedValues(raw, []);
    var pairs := EncodeExactly(Surviving(raw));
    forall name ensures ValuesOf(Given(pairs), name) == if IsUtm(name) then [] else Lookup(ParseQuery(raw), name) {
      IllegalIsUtm(name);
    }
  }

  /** Cleaning spells out the query anew, takes the fragment away, and changes nothing else of a URL. */
  lemma CleanExactly(u: Url)
    ensures Cleans(u.rawQuery, Clean(u).rawQuery) && Clean(u).fragment == []
    ensures Clean(u).(rawQuery := u.rawQuery, fragment := u.fragment) == u
  {
    EncodedCleans(u.rawQuery);
  }

  ghost function FirstIllegal(n: nat): set<Bytes>
    requires n <= |ILLEGAL_PARAMS|
  {
    set p | p in ILLEGAL_PARAMS[..n]
  }

  lemma NextIllegal(n: nat)
    requires n < |ILLEGAL_PARAMS|
    ensures FirstIllegal(n + 1) == FirstIllegal(n) + {ILLEGAL_PARAMS[n]}
  {
    assert ILLEGAL_PARAMS[..n + 1] == ILLEGAL_PARAMS[..n] + [ILLEGAL_PARAMS[n]];
  }

  method DeleteIllegal(all: Values) returns (v: Values)
    ensures v == all - ILLEGAL
  {
    v := all;
    for i := 0 to |ILLEGAL_PARAMS|
      invariant v == all - FirstIllegal(i)
    {
      NextIllegal(i);
      v := v - {ILLEGAL_PARAMS[i]};
    }
    assert ILLEGAL_PARAMS[..|ILLEGAL_PARAMS|] == ILLEGAL_PARAMS;
  }

  method CleanURL(url: URL?) returns (cleaned: URL?)
    modifies url
    ensures cleaned == url
    ensures url != null ==> url.Value() == Clean(old(url.Value()))
    ensures url != null ==> Cleans(old(url.RawQuery), url.RawQuery) && url.Fragment == []
  {
    if url == null {
      return null;
    }
    var v := DeleteIllegal(ParseQuery(url.RawQuery));
    EncodedCleans(url.RawQuery);
    url.RawQuery := Encode(v);
    url.Fragment := [];
    return url;
  }

  lemma CutBack(before: Bytes, marked: bool, after: Bytes, sep: byte)
    requires sep !in before && (!marked ==> after == [])
    ensures
      var text := before + if marked then [sep] + after else [];
      Cut(text, sep) == (before, after) && (sep in text <==> marked)
  {
    if marked {
      var text := before + ([sep] + after);
      assert text == before + [sep] + after && text[|before|] == sep;
      CutAtFirst(before, after, sep);
    } else {
      assert before + [] == before;
      CutNowhere(before, sep);
    }
  }

  /** The text of a URL gives its parts back: the fragment after the first '#', the query after the first '?'. */
  lemma TextParses(u: Url)
    requires 0x23 !in u.head && 0x3f !in u.head && 0x23 !in u.rawQuery
    ensures
      var (before, fragment) := Cut(u.Text(), 0x23);
      && fragment == u.fragment && Cut(before, 0x3f) == (u.head, u.rawQuery)
      && (0x23 in u.Text() <==> u.fragment != []) && (0x3f in before <==> u.forceQuery || u.rawQuery != [])
  {
    var marked := u.forceQuery || u.rawQuery != [];
    CutBack(u.head, marked, u.rawQuery, 0x3f);
    CutBack(u.head + if marked then [0x3f] + u.rawQuery else [], u.fragment != [], u.fragment, 0x23);
  }

  /** The key of a URL has its hostname's byte sum above the folded hash of its text. */
  lemma KeyOfText(u: Url)
    ensures u.Key() / 0x100_0000_0000_0000 == Keys.ByteSum(u.hostname) % 128
    ensures
      var hash := Keys.Fnv1a(0xcbf2_9ce4_8422_2325, u.Text());
      u.Key() % 0x100_0000_0000_0000 == Xor(hash / 0x100_0000_0000_0000, hash % 0x100_0000_0000_0000)
  {
    Keys.KeyLayout(u.hostname, u.Text());
  }

  /** Parsing a cleaned query yields the surviving parameters: nothing is lost or altered by re-encoding. */
  lemma CleanQueryRoundTrip(raw: Bytes)
    ensures ParseQuery(CleanQuery(raw)) == Surviving(raw)
  {
    ParsedValues(raw, []);
    ParseEncode(Surviving(raw));
  }

  lemma CleanQueryIdempotent(raw: Bytes)
    ensures CleanQuery(CleanQuery(raw)) == CleanQuery(raw)
  {
    CleanQueryRoundTrip(raw);
    WithoutTwice(ParseQuery(raw), ILLEGAL);
  }

  lemma WithoutTwice(m: Values, names: set<Bytes>)
    ensures m - names - names == m - names
  {
  }

  /** Cleaning a clean URL changes nothing. */
  lemma CleanIdempotent(u: Url)
    ensures Clean(Clean(u)) == Clean(u)
  {
    CleanQueryIdempotent(u.rawQuery);
  }

  lemma SurvivingLookup(raw: Bytes, name: Bytes)
    ensures Lookup(Surviving(raw), name) == if name in ILLEGAL then [] else ValuesOf(QueryParams(raw), name)
    ensures NoEmptyLists(Surviving(raw))
  {
    ParsedValues(raw, name);
  }

  /** Two parameter lists give every name outside the utm list the same values in the same order. */
  ghost predicate Agree(xs: seq<Param>, ys: seq<Param>) {
    forall name :: name !in ILLEGAL ==> ValuesOf(xs, name) == ValuesOf(ys, name)
  }

  lemma AgreeingSurvive(q1: Bytes, q2: Bytes)
    requires Agree(QueryParams(q1), QueryParams(q2))
    ensures Surviving(q1) == Surviving(q2)
  {
    forall name ensures Lookup(Surviving(q1), name) == Lookup(Surviving(q2), name) {
      SurvivingLookup(q1, name);
      SurvivingLookup(q2, name);
    }
    SurvivingLookup(q1, []);
    SurvivingLookup(q2, []);
    SameLookups(Surviving(q1), Surviving(q2));
  }

  lemma SurvivorsAgree(q1: Bytes, q2: Bytes)
    requires Surviving(q1) == Surviving(q2)
    ensures Agree(QueryParams(q1), QueryParams(q2))
  {
    forall name | name !in ILLEGAL ensures ValuesOf(QueryParams(q1), name) == ValuesOf(QueryParams(q2), name) {
      SurvivingLookup(q1, name);
      SurvivingLookup(q2, name);
    }
  }

  /** Exactly which queries clean to the same string: those that give every name outside the utm list the same values
      in the same order. The position of differently named parameters, utm parameters, undecodable segments and the
      choice of escapes do not matter; everything else does. */
  lemma SameCleanQuery(q1: Bytes, q2: Bytes)
    ensures CleanQuery(q1) == CleanQuery(q2) <==> Agree(QueryParams(q1), QueryParams(q2))
  {
    if CleanQuery(q1) == CleanQuery(q2) {
      CleanQueryRoundTrip(q1);
      CleanQueryRoundTrip(q2);
      SurvivorsAgree(q1, q2);
    }
    if Agree(QueryParams(q1), QueryParams(q2)) {
      AgreeingSurvive(q1, q2);
    }
  }

  /** The empty query has one segment, which does not decode. */
  lemma JoinAgrees(segments: seq<Bytes>)
    requires Separable(segments)
    ensures Agree(QueryParams(Join(segments)), Params(segments))
  {
    if segments == [] {
      assert Params([[]]) == [Decode([])];
      assert [Decode([])][1..] == [];
    } else {
      SegmentsJoin(segments);
    }
  }

  lemma AgreeingListsCleanAlike(xs: seq<Bytes>, ys: seq<Bytes>)
    requires Separable(xs) && Separable(ys) && Agree(Params(xs), Params(ys))
    ensures CleanQuery(Join(xs)) == CleanQuery(Join(ys))
  {
    JoinAgrees(xs);
    JoinAgrees(ys);
    SameCleanQuery(Join(xs), Join(ys));
  }

  lemma SpliceAgrees(before: seq<Bytes>, xs: seq<Bytes>, ys: seq<Bytes>, after: seq<Bytes>)
    requires Agree(Params(xs), Params(ys))
    ensures Agree(Params(before + xs + after), Params(before + ys + after))
  {
    var a, b := Params(before), Params(after);
    assert Params(before + xs + after) == a + Params(xs) + b;
    assert Params(before + ys + after) == a + Params(ys) + b;
    forall name | name !in ILLEGAL
      ensures ValuesOf(a + Params(xs) + b, name) == ValuesOf(a + Params(ys) + b, name)
    {
      ValuesOfAppend(a + Params(xs), b, name);
      ValuesOfAppend(a, Params(xs), name);
      ValuesOfAppend(a + Params(ys), b, name);
      ValuesOfAppend(a, Params(ys), name);
    }
  }

  /** A segment that names a utm parameter, or does not decode, may be added anywhere, to the empty query too. */
  lemma DroppedSegment(before: seq<Bytes>, segment: Bytes, after: seq<Bytes>)
    requires Separable(before) && AMPERSAND !in segment && Separable(after)
    requires Decode(segment).Some? ==> Decode(segment).value.0 in ILLEGAL
    ensures CleanQuery(Join(before + [segment] + after)) == CleanQuery(Join(before + after))
  {
    assert Params([segment]) == [Decode(segment)];
    assert Agree(Params([segment]), Params([]));
    SpliceAgrees(before, [segment], [], after);
    assert before + [] + after == before + after;
    AgreeingListsCleanAlike(before + [segment] + after, before + after);
  }

  /** Neighbouring parameters of different names may change places. */
  lemma SwappedSegments(before: seq<Bytes>, x: Bytes, y: Bytes, after: seq<Bytes>)
    requires Separable(before) && AMPERSAND !in x && AMPERSAND !in y && Separable(after)
    requires Decode(x).Some? && Decode(y).Some? && Decode(x).value.0 != Decode(y).value.0
    ensures CleanQuery(Join(before + [x, y] + after)) == CleanQuery(Join(before + [y, x] + after))
  {
    assert Params([x, y]) == [Decode(x), Decode(y)] && Params([y, x]) == [Decode(y), Decode(x)];
    SwappedAgree(Decode(x), Decode(y));
    SpliceAgrees(before, [x, y], [y, x], after);
    AgreeingListsCleanAlike(before + [x, y] + after, before + [y, x] + after);
  }

  lemma SwappedAgree(x: Param, y: Param)
    requires x.Some? && y.Some? && x.value.0 != y.value.0
    ensures Agree([x, y], [y, x])
  {
    assert [x, y][1..] == [y] && [y, x][1..] == [x];
    forall name ensures ValuesOf([x, y], name) == ValuesOf([y, x], name) {
      assert ValuesOf([x], name) == if x.value.0 == name then [x.value.1] else [];
      assert ValuesOf([y], name) == if y.value.0 == name then [y.value.1] else [];
    }
  }

  /** URLs that differ only in their fragment and in queries that agree outside the utm names share one cleaned text
      and one storage key. */
  lemma SameCacheEntry(u: Url, v: Url)
    requires u.head == v.head && u.hostname == v.hostname && u.forceQuery == v.forceQuery
    requires Agree(QueryParams(u.rawQuery), QueryParams(v.rawQuery))
    ensures Clean(u) == Clean(v)
    ensures Clean(u).Text() == Clean(v).Text() && Clean(u).Key() == Clean(v).Key()
  {
    SameCleanQuery(u.rawQuery, v.rawQuery);
  }
}
