/** Domain names and the queries that search for them: validation, and the rewriting of a user's wildcards into a LIKE
    pattern. */
module DomainQueries {
  import opened Wrappers
  import opened Texts

  datatype DomainError = BadCharactersOrLength | NoDot | BadTLD | EmptyLabel | BadLabel | BadDashes

  datatype QueryError = IllegalCharacters

  const MAX_QUERY := 251

  // ---- Letters ----

  /** Lower case of a character: the ASCII letters, and the two other characters whose lower case is an ASCII letter,
      the Kelvin sign and the dotted capital I. */
  function LowerChar(c: char): char {
    if 'A' <= c <= 'Z' then c - 'A' + 'a'
    else if c == '\U{212A}' then 'k'
    else if c == '\U{0130}' then 'i'
    else c
  }

  function ToLower(s: string): string {
    seq(|s|, i requires 0 <= i < |s| => LowerChar(s[i]))
  }

  predicate IsAlpha(c: char) {
    'a' <= c <= 'z' || 'A' <= c <= 'Z'
  }

  predicate IsAlphaNum(c: char) {
    IsAlpha(c) || '0' <= c <= '9'
  }

  predicate IsDomainChar(c: char) {
    IsAlphaNum(c) || c == '.' || c == '-'
  }

  /** A character of a lower-cased query other than a wildcard. */
  predicate IsPlain(c: char) {
    'a' <= c <= 'z' || '0' <= c <= '9' || c == '.' || c == '-'
  }

  predicate AllPlain(s: string) {
    forall i | 0 <= i < |s| :: IsPlain(s[i])
  }

  /** Lower case already. */
  predicate IsLower(s: string) {
    ToLower(s) == s
  }

  // The characters of the classes of the regular expressions.

  lemma LowersAre(c: char)
    ensures 'a' <= c <= 'z' <==> OneOf(c, "abcdefghijklmnopqrstuvwxyz")
  {
    if 'a' <= c <= 'z' {
      assert "abcdefghijklmnopqrstuvwxyz"[c as int - 'a' as int] == c;
    }
  }

  lemma UppersAre(c: char)
    ensures 'A' <= c <= 'Z' <==> OneOf(c, "ABCDEFGHIJKLMNOPQRSTUVWXYZ")
  {
    if 'A' <= c <= 'Z' {
      assert "ABCDEFGHIJKLMNOPQRSTUVWXYZ"[c as int - 'A' as int] == c;
    }
  }

  lemma DigitsAre(c: char)
    ensures '0' <= c <= '9' <==> OneOf(c, "0123456789")
  {
    if '0' <= c <= '9' {
      assert "0123456789"[c as int - '0' as int] == c;
    }
  }

  lemma ClassesAre(c: char)
    ensures 'a' <= c <= 'z' <==> OneOf(c, "abcdefghijklmnopqrstuvwxyz")
    ensures 'A' <= c <= 'Z' <==> OneOf(c, "ABCDEFGHIJKLMNOPQRSTUVWXYZ")
    ensures '0' <= c <= '9' <==> OneOf(c, "0123456789")
  {
    LowersAre(c);
    UppersAre(c);
    DigitsAre(c);
  }

  /** Lower-casing changes the upper-case letters into the lower-case ones, and two characters besides. */
  lemma LowerExactly(c: char, i: nat)
    requires i < 26
    ensures LowerChar("ABCDEFGHIJKLMNOPQRSTUVWXYZ"[i]) == "abcdefghijklmnopqrstuvwxyz"[i]
    ensures LowerChar(c) != c <==> OneOf(c, "ABCDEFGHIJKLMNOPQRSTUVWXYZ") || c == '\U{212A}' || c == '\U{0130}'
    ensures LowerChar('\U{212A}') == 'k' && LowerChar('\U{0130}') == 'i'
  {
    UppersAre(c);
    LowerLetter(i);
  }

  lemma LowerLetter(i: nat)
    requires i < 26
    ensures LowerChar("ABCDEFGHIJKLMNOPQRSTUVWXYZ"[i]) == "abcdefghijklmnopqrstuvwxyz"[i]
  {
  }

  lemma ToLowerIsLower(s: string)
    ensures IsLower(ToLower(s))
  {
  }

  // ---- LIKE ----

  /** LIKE folds the ASCII letters and no others. */
  function FoldChar(c: char): char {
    if 'A' <= c <= 'Z' then c - 'A' + 'a' else c
  }

  /** SQL LIKE: '%' stands for any string, '_' for any character, any other character for itself in either case. */
  predicate Like(pattern: string, s: string)
    decreases |pattern| + |s|
  {
    if pattern == "" then s == ""
    else if pattern[0] == '%' then Like(pattern[1..], s) || (s != "" && Like(pattern, s[1..]))
    else s != "" && (pattern[0] == '_' || FoldChar(pattern[0]) == FoldChar(s[0])) && Like(pattern[1..], s[1..])
  }

  // ---- Queries ----

  /** A text with at most one wildcard taken off either end. */
  datatype Parts = Parts(lead: bool, core: string, trail: bool) {
    function Text(): string {
      (if lead then "%" else "") + core + (if trail then "%" else "")
    }
  }

  function Strip(q: string, wildcards: set<char>): Parts {
    var lead := q != "" && q[0] in wildcards;
    var rest := if lead then q[1..] else q;
    var trail := rest != "" && rest[|rest| - 1] in wildcards;
    Parts(lead, if trail then rest[..|rest| - 1] else rest, trail)
  }

  /** A leading and a trailing '*' become '%'. */
  function StarsReplaced(query: string): string {
    var q := if query != "" && query[0] == '*' then "%" + query[1..] else query;
    if q != "" && q[|q| - 1] == '*' then q[..|q| - 1] + "%" else q
  }

  predicate Acceptable(core: string) {
    AllPlain(core) && |core| <= MAX_QUERY
  }

  /** The match of the regular expression `^(%?)[a-z0-9.-]{0,251}(%?)$`, if there is one. */
  function Validated(q: string): Option<Parts> {
    var parts := Strip(q, {'%'});
    if Acceptable(parts.core) then Some(parts) else None
  }

  function ParseDomainQuery(query: string): Result<string, QueryError> {
    var q := ToLower(StarsReplaced(query));
    var matched := Validated(q);
    if matched.None? then Failure(IllegalCharacters)
    else if !matched.value.lead && !matched.value.trail then Success("%" + q + "%")
    else Success(q)
  }

  lemma StripText(q: string)
    ensures Strip(q, {'%'}).Text() == q
  {
  }

  lemma PartsOfText(parts: Parts)
    requires Acceptable(parts.core)
    ensures Validated(parts.Text()).Some?
  {
    var q := parts.Text();
    if parts.lead {
      assert q[1..] == parts.core + if parts.trail then "%" else "";
    } else if parts.core == "" && parts.trail {
      assert q == "%";
    }
  }

  ghost predicate InClass(c: char) {
    OneOf(c, "abcdefghijklmnopqrstuvwxyz") || OneOf(c, "0123456789") || c == '.' || c == '-'
  }

  ghost predicate InExpression(core: string) {
    |core| <= 251 && forall i | 0 <= i < |core| :: InClass(core[i])
  }

  lemma AcceptableMeans(core: string)
    ensures Acceptable(core) <==> InExpression(core)
  {
    forall i | 0 <= i < |core| ensures IsPlain(core[i]) <==> InClass(core[i])
    {
      ClassesAre(core[i]);
    }
  }

  /** Validation accepts what the expression describes: at most one '%' at either end and between them at most 251 plain
      characters. */
  lemma ValidatedIsTheExpression(q: string)
    ensures Validated(q).Some? <==>
            exists lead, core, trail ::
              q == lead + core + trail && lead in {"", "%"} && trail in {"", "%"} && InExpression(core)
  {
    ValidatedParts(q);
    if Validated(q).Some? {
      var parts := Validated(q).value;
      AcceptableMeans(parts.core);
      StripText(q);
      assert q == (if parts.lead then "%" else "") + parts.core + (if parts.trail then "%" else "");
    }
    forall lead, core, trail |
      q == lead + core + trail && lead in {"", "%"} && trail in {"", "%"} && InExpression(core)
      ensures Validated(q).Some?
    {
      AcceptableMeans(core);
      assert q == Parts(lead == "%", core, trail == "%").Text();
    }
  }

  lemma ValidatedParts(q: string)
    ensures Validated(q).Some? <==> exists parts: Parts :: q == parts.Text() && Acceptable(parts.core)
  {
    StripText(q);
    forall parts: Parts | q == parts.Text() && Acceptable(parts.core) ensures Validated(q).Some? {
      PartsOfText(parts);
    }
  }

  const WILDCARDS := {'*', '%'}

  lemma ReplacedAt(query: string)
    ensures |StarsReplaced(query)| == |query|
    ensures forall i | 0 <= i < |query| ::
              StarsReplaced(query)[i] ==
              if query[i] == '*' && (i == 0 || i == |query| - 1) then '%' else query[i]
  {
  }

  lemma StripAlike(q: string, query: string)
    requires |q| == |query|
    requires query != "" ==> (q[0] == '%' <==> query[0] in WILDCARDS)
    requires query != "" ==> (q[|q| - 1] == '%' <==> query[|query| - 1] in WILDCARDS)
    requires forall i | 0 <= i < |query| && (0 < i < |query| - 1 || query[i] !in WILDCARDS) :: q[i] == LowerChar(query[i])
    ensures Strip(q, {'%'}) == var parts := Strip(query, WILDCARDS); parts.(core := ToLower(parts.core))
  {
    var a, b := Strip(q, {'%'}), Strip(query, WILDCARDS);
    assert a.lead == b.lead && a.trail == b.trail;
    assert a.core == ToLower(b.core);
  }

  /** Replacing the stars and lower-casing keeps the parts of a query apart. */
  lemma StripRewritten(query: string)
    ensures Strip(ToLower(StarsReplaced(query)), {'%'})
            == var parts := Strip(query, WILDCARDS); parts.(core := ToLower(parts.core))
  {
    ReplacedAt(query);
    StripAlike(ToLower(StarsReplaced(query)), query);
  }

  // ---- What a search finds ----

  predicate StartsWith(s: string, t: string) {
    t <= s
  }

  predicate EndsWith(s: string, t: string) {
    |t| <= |s| && s[|s| - |t|..] == t
  }

  predicate Contains(s: string, t: string) {
    exists k | 0 <= k <= |s| :: t <= s[k..]
  }

  /** What a user means: a wildcard at one end asks for a suffix or a prefix, at both ends or at neither for any part. */
  predicate Means(query: string, domain: string) {
    var parts := Strip(query, WILDCARDS);
    var core := ToLower(parts.core);
    if parts.lead == parts.trail then Contains(domain, core)
    else if parts.lead then EndsWith(domain, core)
    else StartsWith(domain, core)
  }

  /** The meaning of a query in terms of its text: a '*' or '%' at one end, at both or at neither, and what is between. */
  lemma WildcardsMean(lead: string, core: string, trail: string, domain: string)
    requires lead in {"", "*", "%"} && trail in {"", "*", "%"} && '*' !in core && '%' !in core
    requires core == "" && lead == "" ==> trail == ""
    ensures
      var (query, text) := (lead + core + trail, ToLower(core));
      Means(query, domain) <==>
      if lead == "" && trail != "" then StartsWith(domain, text)
      else if lead != "" && trail == "" then EndsWith(domain, text)
      else Contains(domain, text)
  {
    var query := lead + core + trail;
    assert Strip(query, WILDCARDS) == Parts(lead != "", core, trail != "") by {
      StripApart(lead, core, trail);
    }
  }

  /** At most one wildcard. */
  predicate AtMostOne(end: string) {
    end == "" || (|end| == 1 && end[0] in WILDCARDS)
  }

  ghost predicate NoWildcard(core: string) {
    forall i | 0 <= i < |core| :: core[i] !in WILDCARDS
  }

  lemma StripApart(lead: string, core: string, trail: string)
    requires AtMostOne(lead) && AtMostOne(trail) && NoWildcard(core) && (core == "" && lead == "" ==> trail == "")
    ensures Strip(lead + core + trail, WILDCARDS) == Parts(lead != "", core, trail != "")
  {
    assert lead + core + trail == lead + (core + trail);
    LeadApart(lead, core + trail, core);
    TrailApart(core, trail);
    StripIs(lead + (core + trail), lead != "", core + trail, trail != "", core);
  }

  lemma StripIs(q: string, lead: bool, rest: string, trail: bool, core: string)
    requires lead == (q != "" && q[0] in WILDCARDS) && rest == if lead then q[1..] else q
    requires trail == (rest != "" && rest[|rest| - 1] in WILDCARDS) && core == if trail then rest[..|rest| - 1] else rest
    ensures Strip(q, WILDCARDS) == Parts(lead, core, trail)
  {
  }

  lemma LeadApart(lead: string, rest: string, core: string)
    requires AtMostOne(lead) && NoWildcard(core) && core <= rest && (lead == "" && core == "" ==> rest == "")
    ensures
      var query := lead + rest;
      (query != "" && query[0] in WILDCARDS <==> lead != "") && rest == if lead != "" then query[1..] else query
  {
    if lead == "" {
      assert lead + rest == rest && (rest != "" ==> rest[0] == core[0]);
    } else {
      assert (lead + rest)[0] == lead[0] && (lead + rest)[1..] == rest;
    }
  }

  lemma TrailApart(core: string, trail: string)
    requires AtMostOne(trail) && NoWildcard(core)
    ensures
      var rest := core + trail;
      && (rest != "" && rest[|rest| - 1] in WILDCARDS <==> trail != "")
      && core == if trail != "" then rest[..|rest| - 1] else rest
  {
    if trail == "" {
      assert core + trail == core;
    } else {
      assert (core + trail)[..|core|] == core && (core + trail)[|core|] == trail[0];
    }
  }

  lemma {:induction false} LikeLiteral(core: string, rest: string, s: string)
    requires AllPlain(core) && IsLower(s)
    ensures Like(core + rest, s) <==> core <= s && Like(rest, s[|core|..])
  {
    if core == "" {
      assert core + rest == rest && s[0..] == s;
    } else {
      assert IsPlain(core[0]) && (core + rest)[1..] == core[1..] + rest;
      if s != "" {
        assert ToLower(s)[0] == s[0];
        forall i | 0 <= i < |s| - 1 ensures LowerChar(s[1..][i]) == s[1..][i] {
          assert ToLower(s)[i + 1] == s[i + 1];
        }
        LikeLiteral(core[1..], rest, s[1..]);
        assert core == [core[0]] + core[1..] && s == [s[0]] + s[1..];
        if core <= s {
          assert s[1..][|core| - 1..] == s[|core|..];
        }
      }
    }
  }

  lemma {:induction false} LikeAnything(rest: string, s: string)
    ensures Like("%" + rest, s) <==> exists k | 0 <= k <= |s| :: Like(rest, s[k..])
  {
    var pattern := "%" + rest;
    assert pattern[1..] == rest && s[0..] == s;
    if s != "" {
      LikeAnything(rest, s[1..]);
      forall k | 0 <= k < |s| ensures s[1..][k..] == s[k + 1..] {
      }
      if Like(rest, s) {
        assert Like(rest, s[0..]);
      }
      if k: int :| 0 <= k <= |s[1..]| && Like(rest, s[1..][k..]) {
        assert Like(rest, s[k + 1..]);
      }
      if k: int :| 0 < k <= |s| && Like(rest, s[k..]) {
        assert Like(rest, s[1..][k - 1..]);
      }
    }
  }

  lemma LikePrefix(core: string, s: string)
    requires AllPlain(core) && IsLower(s)
    ensures Like(core + "%", s) <==> StartsWith(s, core)
  {
    LikeLiteral(core, "%", s);
    if core <= s {
      var rest := s[|core|..];
      LikeAnything("", rest);
      assert "%" + "" == "%" && rest[|rest|..] == "" && Like("", rest[|rest|..]);
    }
  }

  lemma SuffixIsLower(s: string, k: nat)
    requires IsLower(s) && k <= |s|
    ensures IsLower(s[k..])
  {
    forall i | 0 <= i < |s| - k ensures LowerChar(s[k..][i]) == s[k..][i] {
      assert ToLower(s)[k + i] == s[k + i];
    }
  }

  lemma LikeSuffix(core: string, s: string)
    requires AllPlain(core) && IsLower(s)
    ensures Like("%" + core, s) <==> EndsWith(s, core)
  {
    LikeAnything(core, s);
    forall k | 0 <= k <= |s| ensures Like(core, s[k..]) <==> core == s[k..] {
      SuffixIsLower(s, k);
      LikeLiteral(core, "", s[k..]);
      assert core + "" == core;
    }
  }

  lemma LikePart(core: string, s: string)
    requires AllPlain(core) && IsLower(s)
    ensures Like("%" + core + "%", s) <==> Contains(s, core)
  {
    assert "%" + core + "%" == "%" + (core + "%");
    LikeAnything(core + "%", s);
    forall k | 0 <= k <= |s| ensures Like(core + "%", s[k..]) <==> core <= s[k..] {
      SuffixIsLower(s, k);
      LikePrefix(core, s[k..]);
    }
  }

  /** A query is accepted exactly when what is left between its wildcards is short enough and plain once lower-cased. */
  lemma AcceptedExactly(query: string)
    ensures ParseDomainQuery(query).Success? <==> Acceptable(ToLower(Strip(query, WILDCARDS).core))
  {
    StripRewritten(query);
  }

  /** The rewriting keeps the meaning of every accepted query on every stored domain. */
  lemma SearchMeansWhatItSays(query: string, domain: string)
    requires ParseDomainQuery(query).Success? && IsLower(domain)
    ensures Like(ParseDomainQuery(query).value, domain) <==> Means(query, domain)
  {
    StripRewritten(query);
    var q := ToLower(StarsReplaced(query));
    StripText(q);
    var parts := Strip(q, {'%'});
    if parts.lead == parts.trail {
      LikePart(parts.core, domain);
      assert ParseDomainQuery(query).value == "%" + parts.core + "%";
    } else if parts.lead {
      LikeSuffix(parts.core, domain);
      assert ParseDomainQuery(query).value == "%" + parts.core;
    } else {
      LikePrefix(parts.core, domain);
      assert ParseDomainQuery(query).value == parts.core + "%";
    }
  }

  // ---- Domains ----

  predicate AllDomainChars(s: string) {
    forall i | 0 <= i < |s| :: IsDomainChar(s[i])
  }

  function Last(labels: seq<string>): string
    requires labels != []
  {
    labels[|labels| - 1]
  }

  predicate ValidTLD(tld: string) {
    2 <= |tld| <= 63 && forall i | 0 <= i < |tld| :: IsAlpha(tld[i])
  }

  predicate ValidLabelChars(elem: string) {
    && 1 <= |elem| <= 63 && IsAlphaNum(elem[0])
    && forall i | 0 <= i < |elem| :: IsAlphaNum(elem[i]) || elem[i] == '-'
  }

  predicate HasDoubleDash(elem: string) {
    exists i | 0 <= i < |elem| - 1 :: elem[i] == '-' && elem[i + 1] == '-'
  }

  /** A label other than the last: at most 63 letters, digits and single dashes, with no dash at either end. */
  predicate ValidLabel(elem: string) {
    ValidLabelChars(elem) && elem[|elem| - 1] != '-' && !HasDoubleDash(elem)
  }

  /** A domain name: 4 to 253 characters, at least two labels, the last one alphabetic. */
  ghost predicate ValidDomain(domain: string) {
    var labels := Split(domain, '.');
    && 4 <= |domain| <= 253 && AllDomainChars(domain)
    && |labels| >= 2 && ValidTLD(Last(labels))
    && forall i | 0 <= i < |labels| - 1 :: ValidLabel(labels[i])
  }

  /** What is wrong with a label, in the order in which validation looks. */
  function LabelError(elem: string): Option<DomainError> {
    if elem == "" then Some(EmptyLabel)
    else if !ValidLabelChars(elem) then Some(BadLabel)
    else if elem[|elem| - 1] == '-' || HasDoubleDash(elem) then Some(BadDashes)
    else None
  }

  /** Reports the first thing that is wrong, and nothing exactly when nothing is. */
  method ValidateDomain(domain: string) returns (err: Option<DomainError>)
    ensures err.None? <==> ValidDomain(domain)
    ensures err == Some(BadCharactersOrLength) <==> !(4 <= |domain| <= 253 && AllDomainChars(domain))
    ensures err == Some(NoDot) ==> '.' !in domain
    ensures err == Some(BadTLD) ==> !ValidTLD(Last(Split(domain, '.')))
    ensures err.Some? && (err.value.EmptyLabel? || err.value.BadLabel? || err.value.BadDashes?) ==>
              exists i | 0 <= i < |Split(domain, '.')| - 1 ::
                LabelError(Split(domain, '.')[i]) == err && forall j | 0 <= j < i :: ValidLabel(Split(domain, '.')[j])
  {
    if !(4 <= |domain| <= 253) || !AllDomainChars(domain) {
      return Some(BadCharactersOrLength);
    }
    var elem := Split(domain, '.');
    if |elem| <= 1 {
      SplitTwice(domain, '.');
      return Some(NoDot);
    }
    var tld := Last(elem);
    if !ValidTLD(tld) {
      return Some(BadTLD);
    }
    for i := 0 to |elem| - 1
      invariant forall j | 0 <= j < i :: ValidLabel(elem[j])
    {
      var e := elem[i];
      if |e| == 0 {
        return Some(EmptyLabel);
      }
      if !ValidLabelChars(e) {
        return Some(BadLabel);
      }
      if e[|e| - 1] == '-' || HasDoubleDash(e) {
        return Some(BadDashes);
      }
    }
    return None;
  }

  lemma LowerCons(c: char, s: string)
    ensures ToLower([c] + s) == [LowerChar(c)] + ToLower(s)
    ensures ToLower([c] + s)[1..] == ToLower(s)
    ensures LowerChar(c) == '.' <==> c == '.'
  {
  }

  predicate AllLowered(labels: seq<string>, low: seq<string>) {
    |low| == |labels| && forall i | 0 <= i < |labels| :: low[i] == ToLower(labels[i])
  }

  lemma AllLowerCons(elem: string, labels: seq<string>, low: seq<string>)
    requires AllLowered(labels, low)
    ensures AllLowered([elem] + labels, [ToLower(elem)] + low)
  {
  }

  lemma {:induction false} SplitLower(s: string)
    ensures AllLowered(Split(s, '.'), Split(ToLower(s), '.'))
  {
    if s != "" {
      SplitLower(s[1..]);
      LowerCons(s[0], s[1..]);
      assert s == [s[0]] + s[1..];
      var rest, low := Split(s[1..], '.'), Split(ToLower(s[1..]), '.');
      if s[0] == '.' {
        AllLowerCons("", rest, low);
        assert Split(s, '.') == [""] + rest && Split(ToLower(s), '.') == [""] + low;
      } else {
        LowerCons(s[0], rest[0]);
        AllLowerCons([s[0]] + rest[0], rest[1..], low[1..]);
        assert Split(s, '.') == [[s[0]] + rest[0]] + rest[1..];
        assert Split(ToLower(s), '.') == [[LowerChar(s[0])] + low[0]] + low[1..];
      }
    }
  }

  lemma LabelsLower(elem: string)
    ensures ValidLabel(elem) ==> ValidLabel(ToLower(elem))
    ensures ValidTLD(elem) ==> ValidTLD(ToLower(elem))
  {
    assert forall i | 0 <= i < |elem| :: ToLower(elem)[i] == '-' <==> elem[i] == '-';
  }

  ghost predicate AllLetters(s: string) {
    forall i | 0 <= i < |s| :: OneOf(s[i], "abcdefghijklmnopqrstuvwxyz") || OneOf(s[i], "ABCDEFGHIJKLMNOPQRSTUVWXYZ")
  }

  ghost predicate AllWordCharacters(s: string) {
    forall i | 0 <= i < |s| ::
      || OneOf(s[i], "abcdefghijklmnopqrstuvwxyz") || OneOf(s[i], "ABCDEFGHIJKLMNOPQRSTUVWXYZ")
      || OneOf(s[i], "0123456789") || s[i] == '-'
  }

  lemma LettersMean(s: string)
    ensures (forall i | 0 <= i < |s| :: IsAlpha(s[i])) <==> AllLetters(s)
    ensures (forall i | 0 <= i < |s| :: IsAlphaNum(s[i]) || s[i] == '-') <==> AllWordCharacters(s)
  {
    forall i | 0 <= i < |s|
      ensures IsAlpha(s[i]) <==> OneOf(s[i], "abcdefghijklmnopqrstuvwxyz") || OneOf(s[i], "ABCDEFGHIJKLMNOPQRSTUVWXYZ")
      ensures IsAlphaNum(s[i]) <==> IsAlpha(s[i]) || OneOf(s[i], "0123456789")
    {
      ClassesAre(s[i]);
    }
  }

  /** A valid top-level name is 2 to 63 letters. A valid label is 1 to 63 letters, digits and dashes, with no dash at
      either end and no two in a row. */
  lemma LabelsMean(elem: string)
    ensures ValidTLD(elem) <==> 2 <= |elem| <= 63 && AllLetters(elem)
    ensures ValidLabel(elem) <==>
            && 1 <= |elem| <= 63 && AllWordCharacters(elem) && elem[0] != '-' && elem[|elem| - 1] != '-'
            && forall i | 0 < i < |elem| :: elem[i] != '-' || elem[i - 1] != '-'
  {
    LettersMean(elem);
    if elem != "" {
      ClassesAre(elem[0]);
    }
    if HasDoubleDash(elem) {
      var i :| 0 <= i < |elem| - 1 && elem[i] == '-' && elem[i + 1] == '-';
      assert elem[i + 1] == '-' && elem[i + 1 - 1] == '-';
    }
    if i :| 0 < i < |elem| && elem[i] == '-' && elem[i - 1] == '-' {
      assert elem[i - 1] == '-' && elem[i - 1 + 1] == '-';
    }
  }

  lemma {:induction false} LabelsMakeDomain(s: string)
    requires forall i | 0 <= i < |Split(s, '.')| :: AllDomainChars(Split(s, '.')[i])
    ensures AllDomainChars(s)
  {
    if s != "" {
      var rest := Split(s[1..], '.');
      if s[0] == '.' {
        assert Split(s, '.')[1..] == rest;
      } else {
        assert Split(s, '.')[0] == [s[0]] + rest[0] && Split(s, '.')[1..] == rest[1..];
        assert AllDomainChars(rest[0]) by {
          assert forall k | 0 <= k < |rest[0]| :: rest[0][k] == Split(s, '.')[0][k + 1];
        }
        assert IsDomainChar(Split(s, '.')[0][0]);
      }
      forall i | 0 <= i < |rest| ensures AllDomainChars(rest[i]) {
        assert i > 0 ==> rest[i] == Split(s, '.')[if s[0] == '.' then i + 1 else i];
      }
      LabelsMakeDomain(s[1..]);
    }
  }

  /** A valid domain is 4 to 253 characters of at least two labels between dots, all valid, the last a top-level name. */
  lemma DomainsMean(domain: string)
    ensures ValidDomain(domain) <==>
            var labels := Split(domain, '.');
            && 4 <= |domain| <= 253 && |labels| >= 2 && ValidTLD(labels[|labels| - 1])
            && forall i | 0 <= i < |labels| - 1 :: ValidLabel(labels[i])
  {
    var labels := Split(domain, '.');
    if forall i | 0 <= i < |labels| :: ValidTLD(labels[i]) || ValidLabel(labels[i]) {
      LabelsMakeDomain(domain);
    }
  }

  /** Lower-casing keeps a domain valid. */
  lemma LowerCaseStaysValid(domain: string)
    requires ValidDomain(domain)
    ensures ValidDomain(ToLower(domain))
  {
    SplitLower(domain);
    forall i | 0 <= i < |Split(domain, '.')| {
      LabelsLower(Split(domain, '.')[i]);
    }
  }

  lemma PlainText(s: string)
    requires AllPlain(s) && s != ""
    ensures ToLower(s) == s && Strip(s, WILDCARDS) == Parts(false, s, false)
  {
  }

  lemma DomainPartsArePlain(domain: string, i: nat, j: nat)
    requires AllDomainChars(domain) && i < j <= |domain|
    ensures
      var part := ToLower(domain)[i..j];
      AllPlain(part) && ToLower(part) == part && Strip(part, WILDCARDS) == Parts(false, part, false)
  {
    var part := ToLower(domain)[i..j];
    forall k | 0 <= k < |part| ensures IsPlain(part[k]) {
      assert IsDomainChar(domain[i + k]);
    }
    PlainText(part);
  }

  /** Every non-empty part of a valid domain's lower-case form finds the domain, if it has at most 251 characters; a
      longer part is rejected. */
  lemma DomainsAreFindable(domain: string, i: nat, j: nat)
    requires ValidDomain(domain) && i < j <= |domain|
    ensures
      var part := ToLower(domain)[i..j];
      && (ParseDomainQuery(part).Success? <==> j - i <= 251)
      && (j - i <= 251 ==> Like(ParseDomainQuery(part).value, ToLower(domain)))
  {
    DomainPartsArePlain(domain, i, j);
    AnyPartFinds(ToLower(domain), i, j);
  }

  lemma PlainPartFinds(part: string, s: string)
    requires IsLower(s) && Contains(s, part)
    requires AllPlain(part) && ToLower(part) == part && Strip(part, WILDCARDS) == Parts(false, part, false)
    ensures ParseDomainQuery(part).Success? <==> |part| <= MAX_QUERY
    ensures |part| <= MAX_QUERY ==> Like(ParseDomainQuery(part).value, s)
  {
    AcceptedExactly(part);
    if |part| <= MAX_QUERY {
      SearchMeansWhatItSays(part, s);
    }
  }

  lemma AnyPartFinds(s: string, i: nat, j: nat)
    requires IsLower(s) && i < j <= |s|
    requires AllPlain(s[i..j]) && ToLower(s[i..j]) == s[i..j] && Strip(s[i..j], WILDCARDS) == Parts(false, s[i..j], false)
    ensures ParseDomainQuery(s[i..j]).Success? <==> j - i <= MAX_QUERY
    ensures j - i <= MAX_QUERY ==> Like(ParseDomainQuery(s[i..j]).value, s)
  {
    PartIsContained(s, i, j);
    PlainPartFinds(s[i..j], s);
  }

  lemma PartIsContained(s: string, i: nat, j: nat)
    requires i <= j <= |s|
    ensures Contains(s, s[i..j])
  {
    assert s[i..j] <= s[i..];
  }

  function Repeated(n: nat): string {
    seq(n, i => 'a')
  }

  lemma ThreeDots(elem: string, last: string)
    requires '.' !in elem && '.' !in last
    ensures Split(elem + "." + (elem + "." + (elem + "." + (last + "." + "aa"))), '.') == [elem, elem, elem, last, "aa"]
  {
    SplitUncut("aa", '.');
    SplitAtFirst(last, "aa", '.');
    SplitAtFirst(elem, last + "." + "aa", '.');
    SplitAtFirst(elem, elem + "." + (last + "." + "aa"), '.');
    SplitAtFirst(elem, elem + "." + (elem + "." + (last + "." + "aa")), '.');
  }

  /** So the longest domains cannot be found under their full names. */
  lemma LongestDomainsAreNotFindable() returns (domain: string)
    ensures ValidDomain(domain) && IsLower(domain) && ParseDomainQuery(domain).Failure?
  {
    var elem, last := Repeated(62), Repeated(60);
    domain := elem + "." + (elem + "." + (elem + "." + (last + "." + "aa")));
    ThreeDots(elem, last);
    assert ValidLabel(elem) && ValidLabel(last) && ValidTLD("aa");
    assert |domain| == 252;
    WholeDomainIsRejected(domain);
  }

  lemma WholeDomainIsRejected(domain: string)
    requires ValidDomain(domain) && |domain| == 252 && forall i | 0 <= i < |domain| :: domain[i] == LowerChar(domain[i])
    ensures IsLower(domain) && ParseDomainQuery(domain).Failure?
  {
    assert ToLower(domain) == domain && domain[0..252] == domain;
    DomainsAreFindable(domain, 0, 252);
  }
}
