/** The table of per-domain fetch settings: keyed by lower-case domain, searched and paged in the order of the domains. */
module DomainSettingsTable {
  import opened Wrappers
  import opened Ordering
  import opened DomainQueries

  datatype Settings = Settings(
    domain: string, sitename: string, fetchClient: int, userAgent: string, headers: map<string, string>)

  datatype SettingsError =
    | DomainRequired
    | InvalidDomain(error: DomainError)
    | InvalidQuery
    | NotFound
    | StatementFailed

  type Table = map<string, Settings>

  const DEFAULT_BATCH := 100
  const MAX_BATCH := 1000

  const CHAR_LT: (char, char) -> bool := (x: char, y: char) => x < y
  const TEXT_LT: (string, string) -> bool := (a: string, b: string) => LexLt(CHAR_LT, a, b)

  lemma TextOrdered()
    ensures StrictTotal(TEXT_LT)
  {
    LexStrictTotal(CHAR_LT, TEXT_LT);
  }

  /** The numbers of the characters of a text. */
  function Codes(s: string): (r: seq<int>)
    ensures |r| == |s| && forall i | 0 <= i < |s| :: r[i] == s[i] as int
  {
    seq(|s|, i requires 0 <= i < |s| => s[i] as int)
  }

  /** The order compares characters by their numbers. */
  lemma {:induction false} TextOrderMeans(a: string, b: string)
    ensures TEXT_LT(a, b) <==> Precedes(Codes(a), Codes(b))
  {
    if a == "" {
      assert SameUpTo(Codes(a), Codes(b), 0);
    } else if b != "" {
      assert Codes(a) == [a[0] as int] + Codes(a[1..]) && Codes(b) == [b[0] as int] + Codes(b[1..]);
      if a[0] == b[0] {
        TextOrderMeans(a[1..], b[1..]);
        PrecedesCons(a[0] as int, Codes(a[1..]), Codes(b[1..]));
      } else {
        assert SameUpTo(Codes(a), Codes(b), 0);
      }
    }
  }

  /** The table's invariant: rows sit under their own, lower-case, non-empty domain. */
  ghost predicate WellKeyed(t: Table) {
    forall d | d in t :: d != "" && IsLower(d) && t[d].domain == d
  }

  function Lowered(s: Settings): Settings {
    s.(domain := ToLower(s.domain))
  }

  /** The column limits of the schema. */
  predicate Storable(s: Settings) {
    |s.domain| <= 255 && |s.sitename| <= 255 && |s.userAgent| <= 512
  }

  function Written(t: Table, s: Settings): Table {
    t[ToLower(s.domain) := Lowered(s)]
  }

  function Removed(t: Table, domain: string): Table {
    t - {ToLower(domain)}
  }

  function Row(t: Table, domain: string): Result<Settings, SettingsError> {
    if domain in t then Success(t[domain]) else Failure(NotFound)
  }

  predicate Everything(query: string) {
    query == "" || query == "*"
  }

  /** The domains a statement with the given pattern selects. */
  function Selected(t: Table, query: string): set<string>
    requires Everything(query) || ParseDomainQuery(query).Success?
  {
    set d | d in t && (Everything(query) || Like(ParseDomainQuery(query).value, d))
  }

  /** Those domains in the order of the table. */
  function SelectedDomains(t: Table, query: string): (r: seq<string>)
    requires Everything(query) || ParseDomainQuery(query).Success?
    ensures forall d :: d in r <==> d in Selected(t, query)
    ensures Ascending(TEXT_LT, r)
  {
    TextOrdered();
    SortedSeq(TEXT_LT, Selected(t, query))
  }

  function RowsOf(t: Table, domains: seq<string>): seq<Settings>
    requires forall d | d in domains :: d in t
  {
    seq(|domains|, i requires 0 <= i < |domains| => t[domains[i]])
  }

  function Listing(t: Table, query: string): seq<Settings>
    requires Everything(query) || ParseDomainQuery(query).Success?
  {
    RowsOf(t, SelectedDomains(t, query))
  }

  function EffectiveLimit(limit: nat): (r: nat)
    ensures 0 < r <= MAX_BATCH && (0 < limit <= MAX_BATCH ==> r == limit)
  {
    if limit == 0 then DEFAULT_BATCH else if limit > MAX_BATCH then MAX_BATCH else limit
  }

  /** LIMIT and OFFSET; an offset below zero counts as zero. */
  function Page(rows: seq<Settings>, offset: int, limit: nat): (r: seq<Settings>)
    ensures |r| <= limit
  {
    var start := if offset < 0 then 0 else if offset > |rows| then |rows| else offset;
    if limit < |rows| - start then rows[start..start + limit] else rows[start..]
  }

  /** The elements of a listing from an offset on, as many as the limit allows. */
  ghost predicate IsPage(listing: seq<Settings>, offset: int, limit: nat, page: seq<Settings>) {
    var start := if offset < 0 then 0 else offset;
    && |page| <= limit
    && (forall k | 0 <= k < |page| :: start + k < |listing| && page[k] == listing[start + k])
    && (|page| < limit ==> start + |page| >= |listing|)
  }

  lemma PageExactly(listing: seq<Settings>, offset: int, limit: nat)
    ensures IsPage(listing, offset, limit, Page(listing, offset, limit))
  {
    if offset >= |listing| {
      assert Page(listing, offset, limit) == [];
    } else {
      var start := if offset < 0 then 0 else offset;
      PageFrom(listing, start, limit);
      assert Page(listing, offset, limit) == Page(listing, start, limit);
    }
  }

  lemma PageFrom(listing: seq<Settings>, start: nat, limit: nat)
    requires start <= |listing|
    ensures IsPage(listing, start, limit, Page(listing, start, limit))
  {
  }

  lemma LimitsAre(limit: nat)
    ensures EffectiveLimit(limit) == if limit == 0 then 100 else if limit > 1000 then 1000 else limit
  {
  }

  /** Settings held by reference, so that saving can lower-case the domain its caller sees. */
  class DomainSettings {
    var settings: Settings

    constructor (s: Settings)
      ensures settings == s
    {
      settings := s;
    }
  }

  method NewDomainSettings(domain: string) returns (d: DomainSettings?, err: Option<SettingsError>)
    ensures err.None? <==> ValidDomain(domain)
    ensures err.None? ==> d != null && fresh(d) && d.settings == Settings(ToLower(domain), "", 0, "", map[])
    ensures err.Some? ==> d == null && err.value.InvalidDomain?
  {
    var invalid := ValidateDomain(domain);
    if invalid.Some? {
      return null, Some(InvalidDomain(invalid.value));
    }
    d := new DomainSettings(Settings(ToLower(domain), "", 0, "", map[]));
    return d, None;
  }

  class DomainSettingsStorage {
    var rows: Table
    const maxBatchSize: nat

    constructor ()
      ensures Valid() && rows == map[]
    {
      rows := map[];
      maxBatchSize := MAX_BATCH;
    }

    ghost predicate Valid()
      reads this
    {
      WellKeyed(rows) && maxBatchSize == MAX_BATCH
    }

    /** The argument's domain is lower-cased even if the statement then fails. */
    method Save(domain: DomainSettings, fails: bool) returns (err: Option<SettingsError>)
      requires Valid()
      modifies this`rows, domain
      ensures Valid()
      ensures domain.settings == old(domain.settings).(domain := ToLower(old(domain.settings).domain))
      ensures old(domain.settings).domain == "" ==> err == Some(DomainRequired) && rows == old(rows)
      ensures old(domain.settings).domain != "" && err.None? ==>
                && rows == Written(old(rows), old(domain.settings))
                && rows == old(rows)[domain.settings.domain := domain.settings]
      ensures old(domain.settings).domain != "" && err.Some? ==> err == Some(StatementFailed) && rows == old(rows)
      ensures old(domain.settings).domain != "" ==>
                (err.None? <==> !fails && |old(domain.settings).domain| <= 255
                                && |old(domain.settings).sitename| <= 255 && |old(domain.settings).userAgent| <= 512)
    {
      if domain.settings.domain == "" {
        return Some(DomainRequired);
      }
      domain.settings := Lowered(domain.settings);
      if fails || !Storable(domain.settings) {
        return Some(StatementFailed);
      }
      ToLowerIsLower(old(domain.settings).domain);
      rows := rows[domain.settings.domain := domain.settings];
      return None;
    }

    /** Compares lower-cased domains on both sides, so that at most one row can go. */
    method Delete(domain: string, fails: bool) returns (r: Result<bool, SettingsError>)
      requires Valid()
      modifies this`rows
      ensures Valid()
      ensures !ValidDomain(domain) ==> r.Failure? && r.error.InvalidDomain? && rows == old(rows)
      ensures ValidDomain(domain) && fails ==> r == Failure(StatementFailed) && rows == old(rows)
      ensures ValidDomain(domain) && !fails ==>
                && r == Success(ToLower(domain) in old(rows)) && rows == Removed(old(rows), domain)
                && rows == old(rows) - {ToLower(domain)}
    {
      var invalid := ValidateDomain(domain);
      if invalid.Some? {
        return Failure(InvalidDomain(invalid.value));
      }
      if fails {
        return Failure(StatementFailed);
      }
      var hit := set d | d in rows && FoldText(d) == FoldText(domain);
      forall d | d in rows ensures d in hit <==> d == ToLower(domain) {
        FoldedAlike(d, domain);
      }
      rows := rows - hit;
      if |hit| == 0 {
        return Success(false);
      }
      assert hit == {ToLower(domain)};
      return Success(true);
    }

    method Fetch(domain: string, fails: bool) returns (r: Result<Settings, SettingsError>)
      ensures r == if fails then Failure(StatementFailed)
                   else if domain in rows then Success(rows[domain]) else Failure(NotFound)
    {
      if fails {
        return Failure(StatementFailed);
      }
      if domain !in rows {
        return Failure(NotFound);
      }
      return Success(rows[domain]);
    }

    method FetchRange(offset: int, limit: nat, query: string, fails: bool)
      returns (r: Result<seq<Settings>, SettingsError>)
      requires Valid()
      ensures query != "" && query != "*" && ParseDomainQuery(query).Failure? ==> r == Failure(InvalidQuery)
      ensures query == "" || query == "*" || ParseDomainQuery(query).Success? ==>
                if fails then r == Failure(StatementFailed)
                else
                  && r == Success(Page(Listing(rows, query), offset, EffectiveLimit(limit)))
                  && IsPage(Listing(rows, query), offset, if limit == 0 then 100 else if limit > 1000 then 1000 else limit,
                            r.value)
    {
      var batch := limit;
      if limit == 0 {
        batch := DEFAULT_BATCH;
      } else if limit > maxBatchSize {
        batch := maxBatchSize;
      }
      if query != "" && query != "*" {
        var pattern := ParseDomainQuery(query);
        if pattern.Failure? {
          return Failure(InvalidQuery);
        }
      }
      if fails {
        return Failure(StatementFailed);
      }
      LimitsAre(limit);
      PageExactly(Listing(rows, query), offset, batch);
      var dss := Scanned(Page(Listing(rows, query), offset, batch));
      return Success(dss);
    }
  }

  /** The rows of a cursor, read one by one. */
  method Scanned(cursor: seq<Settings>) returns (dss: seq<Settings>)
    ensures dss == cursor
  {
    dss := [];
    for i := 0 to |cursor|
      invariant dss == cursor[..i]
    {
      dss := dss + [cursor[i]];
    }
    assert cursor[..|cursor|] == cursor;
  }

  // ---- Keys and case ----

  /** SQL LOWER, which folds the ASCII letters. */
  function FoldText(s: string): string {
    seq(|s|, i requires 0 <= i < |s| => FoldChar(s[i]))
  }

  lemma FoldedAlike(d: string, domain: string)
    requires IsLower(d) && AllDomainChars(domain)
    ensures FoldText(d) == FoldText(domain) <==> d == ToLower(domain)
  {
    assert forall i | 0 <= i < |d| :: ToLower(d)[i] == d[i] == FoldChar(d[i]);
    assert FoldText(d) == d;
    assert forall i | 0 <= i < |domain| :: IsDomainChar(domain[i]) && FoldChar(domain[i]) == LowerChar(domain[i]);
    assert FoldText(domain) == ToLower(domain);
  }

  /** Settings are found under the lower-case form of the domain they were saved with, and under the form it was written
      in exactly when that is lower case: fetching, unlike saving and deleting, minds the case. */
  lemma FetchMindsTheCase(t: Table, s: Settings)
    requires WellKeyed(t)
    ensures Row(Written(t, s), ToLower(s.domain)) == Success(s.(domain := ToLower(s.domain)))
    ensures Row(Written(t, s), s.domain).Success? <==> IsLower(s.domain)
  {
  }

  /** Deleting undoes saving, in whatever case either was asked for, and touches no other row. */
  lemma DeleteUndoesSave(t: Table, s: Settings, domain: string)
    requires ToLower(domain) == ToLower(s.domain)
    ensures Removed(Written(t, s), domain) == Removed(t, domain)
    ensures ToLower(domain) !in t ==> Removed(Written(t, s), domain) == t
    ensures forall d | d in t && d != ToLower(domain) :: Row(Removed(Written(t, s), domain), d) == Success(t[d])
  {
  }

  // ---- Search and paging ----

  lemma RowsOfDomains(t: Table, domains: seq<string>)
    requires WellKeyed(t) && Ascending(TEXT_LT, domains) && forall d | d in domains :: d in t
    ensures
      var rows := RowsOf(t, domains);
      && (forall i, j | 0 <= i < j < |rows| :: TEXT_LT(rows[i].domain, rows[j].domain))
      && (forall s :: s in rows <==> s.domain in domains && t[s.domain] == s)
  {
    var rows := RowsOf(t, domains);
    forall i | 0 <= i < |rows| ensures rows[i].domain == domains[i] && t[domains[i]] == rows[i] {
      assert domains[i] in t;
    }
    forall s | s in rows ensures s.domain in domains && t[s.domain] == s {
      var i :| 0 <= i < |rows| && rows[i] == s;
    }
    forall s: Settings | s.domain in domains && t[s.domain] == s ensures s in rows {
      var i :| 0 <= i < |domains| && domains[i] == s.domain;
      assert rows[i] == s;
    }
  }

  lemma SelectedExactly(t: Table, query: string, d: string)
    requires WellKeyed(t) && (Everything(query) || ParseDomainQuery(query).Success?)
    ensures d in Selected(t, query) <==> d in t && (Everything(query) || Means(query, d))
  {
    if d in t && !Everything(query) {
      SearchMeansWhatItSays(query, d);
    }
  }

  /** A listing holds the rows whose domain the query means, in strictly ascending order of their domains, so each once. */
  lemma ListingIsExact(t: Table, query: string)
    requires WellKeyed(t) && (Everything(query) || ParseDomainQuery(query).Success?)
    ensures
      var rows := Listing(t, query);
      && (forall i, j | 0 <= i < j < |rows| :: Precedes(Codes(rows[i].domain), Codes(rows[j].domain)))
      && (forall s :: s in rows <==>
            s.domain in t && t[s.domain] == s && (query == "" || query == "*" || Means(query, s.domain)))
  {
    var rows := Listing(t, query);
    RowsOfDomains(t, SelectedDomains(t, query));
    forall i, j | 0 <= i < j < |rows| ensures Precedes(Codes(rows[i].domain), Codes(rows[j].domain)) {
      TextOrderMeans(rows[i].domain, rows[j].domain);
    }
    forall d ensures d in Selected(t, query) <==> d in t && (Everything(query) || Means(query, d)) {
      SelectedExactly(t, query, d);
    }
  }

  /** Nothing else would do: any ascending listing of the domains that the query means is the listing that is paged. */
  lemma ListingIsOnlyOne(t: Table, query: string, domains: seq<string>)
    requires WellKeyed(t) && (Everything(query) || ParseDomainQuery(query).Success?)
    requires forall i, j | 0 <= i < j < |domains| :: Precedes(Codes(domains[i]), Codes(domains[j]))
    requires forall d :: d in domains <==> d in t && (Everything(query) || Means(query, d))
    ensures RowsOf(t, domains) == Listing(t, query)
  {
    forall d ensures d in domains <==> d in SelectedDomains(t, query) {
      SelectedExactly(t, query, d);
    }
    forall i, j | 0 <= i < j < |domains| ensures TEXT_LT(domains[i], domains[j]) {
      TextOrderMeans(domains[i], domains[j]);
    }
    TextOrdered();
    AscendingUnique(TEXT_LT, domains, SelectedDomains(t, query));
  }

  /** Asking for page after page, each a whole effective limit further on, until a page comes up short. */
  function Pages(rows: seq<Settings>, limit: nat, offset: nat): seq<Settings>
    decreases |rows| - offset
  {
    var page := Page(rows, offset, EffectiveLimit(limit));
    if |page| < EffectiveLimit(limit) then page else page + Pages(rows, limit, offset + EffectiveLimit(limit))
  }

  lemma {:induction false} PagesCover(rows: seq<Settings>, limit: nat, offset: nat)
    requires offset <= |rows|
    ensures Pages(rows, limit, offset) == rows[offset..]
    decreases |rows| - offset
  {
    var n := EffectiveLimit(limit);
    if offset + n <= |rows| {
      PagesCover(rows, limit, offset + n);
      FullPage(rows, n, offset);
    }
  }

  lemma FullPage(rows: seq<Settings>, n: nat, offset: nat)
    requires offset + n <= |rows|
    ensures rows[offset..] == rows[offset..offset + n] + rows[offset + n..]
  {
  }

  /** Paging is exact: for any limit, the pages put together are the whole listing. */
  lemma PagingIsExact(t: Table, query: string, limit: nat)
    requires Everything(query) || ParseDomainQuery(query).Success?
    ensures Pages(Listing(t, query), limit, 0) == Listing(t, query)
  {
    PagesCover(Listing(t, query), limit, 0);
  }

  /** Settings saved for a valid domain turn up in a search for any part of it, up to the length a query may have. */
  lemma SavedDomainIsFound(t: Table, s: Settings, i: nat, j: nat)
    requires WellKeyed(t) && ValidDomain(s.domain) && i < j <= |s.domain| && j - i <= MAX_QUERY
    ensures ParseDomainQuery(ToLower(s.domain)[i..j]).Success?
    ensures s.(domain := ToLower(s.domain)) in Listing(Written(t, s), ToLower(s.domain)[i..j])
  {
    var part := ToLower(s.domain)[i..j];
    DomainsAreFindable(s.domain, i, j);
    ToLowerIsLower(s.domain);
    SearchMeansWhatItSays(part, ToLower(s.domain));
    ListingIsExact(Written(t, s), part);
  }
}
