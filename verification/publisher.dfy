/**
 * The author/maintainer package listing (src/publisher.ts): every page of
 * search results is fetched, then the list is filtered by organisation
 * scope, sorted by one of seven keys (in place, then reversed unless asked
 * not to) and truncated. The search service is a function parameter
 * `search(offset, size)`; nothing here performs I/O.
 */
module Publisher {
  import opened Wrappers

  // ---------------------------------------------------------------- data

  datatype Package = Package(
    name: string,
    version: string,
    date: int,      // the package date as a millisecond timestamp
    scope: string)

  datatype Detail = Detail(quality: real, popularity: real, maintenance: real)

  datatype ResultScore = ResultScore(final: real, detail: Detail)

  /** One row of a registry search. */
  datatype SearchResult = SearchResult(package: Package, score: ResultScore)

  /** The seven sort keys; the type admits no other. */
  datatype SortBy = Name | Version | Date | Quality | Popularity | Maintenance | Score

  /** The user's query shaping: sort key, reverse flag, organisation, limit. */
  datatype PublisherOptions = PublisherOptions(
    sort: Option<SortBy>,
    reverse: bool,
    org: Option<string>,
    limit: Option<nat>)

  // ---------------------------------------------------------------- comparators

  /**
   * The string order used for names and versions: character by character,
   * a proper prefix first. -1, 0 or 1 like `localeCompare`.
   */
  function LocaleCompare(s: string, t: string): (c: int)
    ensures -1 <= c <= 1
    ensures c == 0 <==> s == t
    decreases |s|
  {
    if s == [] && t == [] then 0
    else if s == [] then -1
    else if t == [] then 1
    else if s[0] < t[0] then -1
    else if s[0] > t[0] then 1
    else
      assert s == [s[0]] + s[1..] && t == [t[0]] + t[1..];
      LocaleCompare(s[1..], t[1..])
  }

  /** Swapping the operands negates the comparison. */
  lemma {:induction false} LocaleCompareFlip(s: string, t: string)
    ensures LocaleCompare(t, s) == -LocaleCompare(s, t)
    decreases |s|
  {
    if s != [] && t != [] && s[0] == t[0] {
      LocaleCompareFlip(s[1..], t[1..]);
    }
  }

  /**
   * The comparator table: a negative or zero value means `a` may precede
   * `b`. Name and version compare b to a; the others compare a to b.
   */
  function Sorter(key: SortBy, a: SearchResult, b: SearchResult): (r: real)
    ensures key == Name ==> (r <= 0.0 <==> LocaleCompare(a.package.name, b.package.name) >= 0)
    ensures key == Version ==> (r <= 0.0 <==> LocaleCompare(a.package.version, b.package.version) >= 0)
    ensures key == Date ==> (r <= 0.0 <==> a.package.date <= b.package.date)
    ensures key == Quality ==> (r <= 0.0 <==> a.score.detail.quality <= b.score.detail.quality)
    ensures key == Popularity ==> (r <= 0.0 <==> a.score.detail.popularity <= b.score.detail.popularity)
    ensures key == Maintenance ==> (r <= 0.0 <==> a.score.detail.maintenance <= b.score.detail.maintenance)
    ensures key == Score ==> (r <= 0.0 <==> a.score.final <= b.score.final)
  {
    LocaleCompareFlip(a.package.name, b.package.name);
    LocaleCompareFlip(a.package.version, b.package.version);
    match key
    case Name => LocaleCompare(b.package.name, a.package.name) as real
    case Version => LocaleCompare(b.package.version, a.package.version) as real
    case Date => (a.package.date - b.package.date) as real
    case Quality => a.score.detail.quality - b.score.detail.quality
    case Popularity => a.score.detail.popularity - b.score.detail.popularity
    case Maintenance => a.score.detail.maintenance - b.score.detail.maintenance
    case Score => a.score.final - b.score.final
  }

  /** The table as a comparator value, as `sorters[key]` hands it to `sort`. */
  function SorterOf(key: SortBy): (SearchResult, SearchResult) -> real
  {
    (a: SearchResult, b: SearchResult) => Sorter(key, a, b)
  }

  /**
   * Sorter's contract lifted to the comparator value `SorterOf(key)` that
   * the sort receives: names and versions in descending string order,
   * dates and scores in ascending order.
   */
  lemma SorterMeaning(key: SortBy, a: SearchResult, b: SearchResult)
    ensures key == Name ==> (InOrder(SorterOf(key), a, b) <==> LocaleCompare(a.package.name, b.package.name) >= 0)
    ensures key == Version ==> (InOrder(SorterOf(key), a, b) <==> LocaleCompare(a.package.version, b.package.version) >= 0)
    ensures key == Date ==> (InOrder(SorterOf(key), a, b) <==> a.package.date <= b.package.date)
    ensures key == Quality ==> (InOrder(SorterOf(key), a, b) <==> a.score.detail.quality <= b.score.detail.quality)
    ensures key == Popularity ==> (InOrder(SorterOf(key), a, b) <==> a.score.detail.popularity <= b.score.detail.popularity)
    ensures key == Maintenance ==> (InOrder(SorterOf(key), a, b) <==> a.score.detail.maintenance <= b.score.detail.maintenance)
    ensures key == Score ==> (InOrder(SorterOf(key), a, b) <==> a.score.final <= b.score.final)
  {
  }

  /** Every comparator in the table is total: of any two results one may precede the other. */
  lemma SorterTotal(key: SortBy)
    ensures Total(SorterOf(key))
  {
    forall a: SearchResult, b: SearchResult | !InOrder(SorterOf(key), a, b)
      ensures InOrder(SorterOf(key), b, a)
    {
      assert Sorter(key, a, b) > 0.0;
    }
  }

  // ---------------------------------------------------------------- generic order

  /** `a` may stand before `b` under comparator `cmp`. */
  predicate InOrder<T>(cmp: (T, T) -> real, a: T, b: T)
  {
    cmp(a, b) <= 0.0
  }

  /** Of any two elements, one may precede the other. */
  ghost predicate Total<T(!new)>(cmp: (T, T) -> real)
  {
    forall a, b :: !InOrder(cmp, a, b) ==> InOrder(cmp, b, a)
  }

  /** Every adjacent pair is in the comparator's order. */
  predicate Ordered<T>(cmp: (T, T) -> real, s: seq<T>)
  {
    forall k :: 0 < k < |s| ==> InOrder(cmp, s[k - 1], s[k])
  }

  /** Read back to front, every adjacent pair is in the comparator's order. */
  predicate OrderedBackward<T>(cmp: (T, T) -> real, s: seq<T>)
  {
    forall k :: 0 < k < |s| ==> InOrder(cmp, s[k], s[k - 1])
  }

  // ---------------------------------------------------------------- reversal

  function Reversed<T>(s: seq<T>): (r: seq<T>)
    ensures |r| == |s|
    ensures multiset(r) == multiset(s)
    decreases |s|
  {
    if s == [] then []
    else
      assert s == s[..|s| - 1] + [s[|s| - 1]];
      [s[|s| - 1]] + Reversed(s[..|s| - 1])
  }

  lemma {:induction false} ReversedAt<T>(s: seq<T>, k: nat)
    requires k < |s|
    ensures Reversed(s)[k] == s[|s| - 1 - k]
    decreases |s|
  {
    if k > 0 {
      ReversedAt(s[..|s| - 1], k - 1);
    }
  }

  /** Reversing a list in the comparator's order gives one in the opposite order. */
  lemma ReversedOrdered<T>(cmp: (T, T) -> real, s: seq<T>)
    requires Ordered(cmp, s)
    ensures OrderedBackward(cmp, Reversed(s))
  {
    var r := Reversed(s);
    forall k | 0 < k < |r|
      ensures InOrder(cmp, r[k], r[k - 1])
    {
      ReversedAt(s, k);
      ReversedAt(s, k - 1);
      assert InOrder(cmp, s[|s| - 1 - k], s[|s| - k]);
    }
  }

  /** `Array.prototype.reverse`: reverse the array in place. */
  method ReverseInPlace<T>(a: array<T>)
    modifies a
    ensures a[..] == Reversed(old(a[..]))
  {
    ghost var before := a[..];
    var lo, hi := 0, a.Length;
    while lo + 1 < hi
      invariant 0 <= lo <= hi <= a.Length && lo + hi == a.Length
      invariant forall k :: 0 <= k < lo ==> a[k] == before[a.Length - 1 - k]
      invariant forall k :: hi <= k < a.Length ==> a[k] == before[a.Length - 1 - k]
      invariant forall k :: lo <= k < hi ==> a[k] == before[k]
    {
      a[lo], a[hi - 1] := a[hi - 1], a[lo];
      lo, hi := lo + 1, hi - 1;
    }
    forall k | 0 <= k < a.Length
      ensures a[k] == Reversed(before)[k]
    {
      ReversedAt(before, k);
    }
  }

  // ---------------------------------------------------------------- sorting

  /** Exchange two neighbouring elements. */
  method SwapAdjacent<T>(a: array<T>, j: nat)
    requires 0 < j < a.Length
    modifies a
    ensures a[j - 1] == old(a[j]) && a[j] == old(a[j - 1])
    ensures forall k :: 0 <= k < a.Length && k != j - 1 && k != j ==> a[k] == old(a[k])
    ensures multiset(a[..]) == multiset(old(a[..]))
  {
    a[j - 1], a[j] := a[j], a[j - 1];
  }

  /**
   * One pass of insertion: with a[..i] in order, move a[i] left past every
   * element that must follow it; afterwards a[..i+1] is in order.
   */
  method Insert<T(!new)>(a: array<T>, cmp: (T, T) -> real, i: nat)
    requires Total(cmp)
    requires i < a.Length
    requires Ordered(cmp, a[..i])
    modifies a
    ensures Ordered(cmp, a[..i + 1])
    ensures multiset(a[..i + 1]) == multiset(old(a[..i + 1]))
    ensures a[i + 1..] == old(a[i + 1..])
    ensures multiset(a[..]) == multiset(old(a[..]))
  {
    Sink(a, cmp, i);
    SameSuffix(old(a[..]), a[..], i + 1);
  }

  /** Move a[i] left past every element that must follow it, leaving a[i+1..] alone. */
  method Sink<T(!new)>(a: array<T>, cmp: (T, T) -> real, i: nat)
    requires Total(cmp)
    requires i < a.Length
    requires Ordered(cmp, a[..i])
    modifies a
    ensures Ordered(cmp, a[..i + 1])
    ensures forall k :: i < k < a.Length ==> a[k] == old(a[k])
    ensures multiset(a[..]) == multiset(old(a[..]))
  {
    var j := i;
    while 0 < j && cmp(a[j - 1], a[j]) > 0.0
      invariant 0 <= j <= i
      invariant forall k :: 0 < k < j ==> InOrder(cmp, a[k - 1], a[k])
      invariant forall k :: j + 1 < k <= i ==> InOrder(cmp, a[k - 1], a[k])
      invariant 0 < j < i ==> InOrder(cmp, a[j - 1], a[j + 1])
      invariant j < i ==> InOrder(cmp, a[j], a[j + 1])
      invariant forall k :: i < k < a.Length ==> a[k] == old(a[k])
      invariant multiset(a[..]) == multiset(old(a[..]))
    {
      SwapAdjacent(a, j);
      j := j - 1;
    }
  }

  /**
   * Two sequences with the same multiset that agree from n on have the same
   * suffix and the same prefix multiset.
   */
  lemma SameSuffix<T>(s: seq<T>, t: seq<T>, n: nat)
    requires n <= |s| == |t|
    requires multiset(s) == multiset(t)
    requires forall k :: n <= k < |s| ==> s[k] == t[k]
    ensures s[n..] == t[n..]
    ensures multiset(s[..n]) == multiset(t[..n])
  {
    assert s[n..] == t[n..];
    assert s == s[..n] + s[n..];
    assert t == t[..n] + t[n..];
    assert multiset(s) == multiset(s[..n]) + multiset(s[n..]);
    assert multiset(t) == multiset(t[..n]) + multiset(t[n..]);
    assert multiset(s[n..]) == multiset(t[n..]);
    forall x
      ensures multiset(s[..n])[x] == multiset(t[..n])[x]
    {
      assert multiset(s)[x] == multiset(s[..n])[x] + multiset(s[n..])[x];
      assert multiset(t)[x] == multiset(t[..n])[x] + multiset(t[n..])[x];
    }
  }

  /**
   * `Array.prototype.sort` with a total comparator: afterwards the array
   * holds the same elements, each adjacent pair in order. This is an
   * insertion sort, stable as the engine's sort is.
   */
  method SortInPlace<T(!new)>(a: array<T>, cmp: (T, T) -> real)
    requires Total(cmp)
    modifies a
    ensures Ordered(cmp, a[..])
    ensures multiset(a[..]) == multiset(old(a[..]))
  {
    var i := 0;
    while i < a.Length
      invariant 0 <= i <= a.Length
      invariant Ordered(cmp, a[..i])
      invariant multiset(a[..]) == multiset(old(a[..]))
    {
      Insert(a, cmp, i);
      i := i + 1;
    }
    assert a[..i] == a[..];
  }

  /** The sort key in force: `date` unless the options name one. */
  function KeyOf(options: PublisherOptions): (key: SortBy)
    ensures options.sort.None? ==> key == Date
    ensures options.sort.Some? ==> key == options.sort.value
  {
    options.sort.GetOr(Date)
  }

  /** The order the pipeline presents: the comparator's with `reverse`, its opposite without. */
  predicate SortedAs(options: PublisherOptions, s: seq<SearchResult>)
  {
    if options.reverse then Ordered(SorterOf(KeyOf(options)), s)
    else OrderedBackward(SorterOf(KeyOf(options)), s)
  }

  /** npm-pd's `sort`: sort by the chosen key, then reverse unless `reverse` is set. */
  method Sort(a: array<SearchResult>, options: PublisherOptions)
    modifies a
    ensures multiset(a[..]) == multiset(old(a[..]))
    ensures SortedAs(options, a[..])
  {
    SorterTotal(KeyOf(options));
    SortInPlace(a, SorterOf(KeyOf(options)));
    if !options.reverse {
      ghost var sorted := a[..];
      ReverseInPlace(a);
      ReversedOrdered(SorterOf(KeyOf(options)), sorted);
    }
  }

  // ---------------------------------------------------------------- filter

  /** The scope an organisation name denotes: one leading '@' removed, if there is one. */
  function GetScope(org: string): (scope: string)
    ensures |org| > 0 && org[0] == '@' ==> "@" + scope == org
    ensures (|org| == 0 || org[0] != '@') ==> scope == org
  {
    if |org| > 0 && org[0] == '@' then org[1..] else org
  }

  /** `r` is `s` with some elements left out, the rest in their order. */
  predicate IsSubsequence<T(==)>(r: seq<T>, s: seq<T>)
    decreases |s|
  {
    if r == [] then true
    else if s == [] then false
    else if r[0] == s[0] then IsSubsequence(r[1..], s[1..])
    else IsSubsequence(r, s[1..])
  }

  /** The results whose package lies in `scope`, in their original order. */
  function KeepScope(ps: seq<SearchResult>, scope: string): (r: seq<SearchResult>)
    ensures IsSubsequence(r, ps)
    ensures forall x :: x in r <==> x in ps && x.package.scope == scope
    ensures forall x :: multiset(r)[x] == if x.package.scope == scope then multiset(ps)[x] else 0
    decreases |ps|
  {
    if ps == [] then []
    else
      assert ps == [ps[0]] + ps[1..];
      if ps[0].package.scope == scope then [ps[0]] + KeepScope(ps[1..], scope)
      else KeepScope(ps[1..], scope)
  }

  /**
   * npm-pd's `filter`: without an organisation (absent or empty) the
   * results pass unchanged; with one, only the results in its scope remain,
   * in order.
   */
  function Filter(ps: seq<SearchResult>, org: Option<string>): (r: seq<SearchResult>)
    ensures !Truthy(org) ==> r == ps
    ensures Truthy(org) ==> IsSubsequence(r, ps)
    ensures Truthy(org) ==> forall x :: x in r <==> x in ps && x.package.scope == GetScope(org.value)
    ensures Truthy(org) ==> forall x :: multiset(r)[x] == if x.package.scope == GetScope(org.value) then multiset(ps)[x] else 0
  {
    if Truthy(org) then KeepScope(ps, GetScope(org.value)) else ps
  }

  /** Organisation "@name" and organisation "name" select the same results. */
  lemma OrgAtSignIgnored(ps: seq<SearchResult>, name: string)
    requires name != "" && name[0] != '@'
    ensures Filter(ps, Some("@" + name)) == Filter(ps, Some(name))
  {
    assert ("@" + name)[1..] == name;
  }

  // ---------------------------------------------------------------- limit

  /** A limit that takes effect: present and not 0. */
  predicate LimitSet(limit: Option<nat>)
  {
    limit.Some? && limit.value != 0
  }

  function MinNat(a: nat, b: nat): nat { if a <= b then a else b }

  /** npm-pd's `limit`: the first `limit` results when the limit is set, all of them otherwise. */
  function Limit(ps: seq<SearchResult>, limit: Option<nat>): (r: seq<SearchResult>)
    ensures r <= ps
    ensures |r| == if LimitSet(limit) then MinNat(limit.value, |ps|) else |ps|
  {
    if LimitSet(limit) then ps[..MinNat(limit.value, |ps|)] else ps
  }

  // ---------------------------------------------------------------- pipeline

  /**
   * `rows` is what filter, sort and limit may present for `results`: the
   * first rows of an ordering of the filtered results in the presented
   * order.
   */
  ghost predicate Presented(rows: seq<SearchResult>, results: seq<SearchResult>, options: PublisherOptions)
  {
    exists sorted: seq<SearchResult> ::
      && multiset(sorted) == multiset(Filter(results, options.org))
      && SortedAs(options, sorted)
      && rows == Limit(sorted, options.limit)
  }

  /**
   * `limit(sort(filter(results)))`. npm-pd sorts the filtered array in
   * place; here the filtered sequence is copied into a fresh array first.
   */
  method Process(results: seq<SearchResult>, options: PublisherOptions) returns (rows: seq<SearchResult>)
    ensures Presented(rows, results, options)
  {
    var filtered := Filter(results, options.org);
    var a := new SearchResult[|filtered|](k requires 0 <= k < |filtered| => filtered[k]);
    assert a[..] == filtered;
    Sort(a, options);
    rows := Limit(a[..], options.limit);
    assert multiset(a[..]) == multiset(filtered) && SortedAs(options, a[..]);
  }

  /**
   * What the presented rows satisfy: no more rows than filtered results and
   * no more than a set limit (exactly that many when there are enough),
   * every row drawn from the filtered results and so from the
   * organisation's scope, and the rows themselves in the presented order.
   */
  lemma PresentedRows(rows: seq<SearchResult>, results: seq<SearchResult>, options: PublisherOptions)
    requires Presented(rows, results, options)
    ensures var filtered := Filter(results, options.org);
      && |rows| <= |filtered|
      && (LimitSet(options.limit) ==> |rows| == MinNat(options.limit.value, |filtered|))
      && multiset(rows) <= multiset(filtered)
      && (!LimitSet(options.limit) ==> multiset(rows) == multiset(filtered))
    ensures Truthy(options.org) ==> forall x :: x in rows ==> x in results && x.package.scope == GetScope(options.org.value)
    ensures SortedAs(options, rows)
  {
    var filtered := Filter(results, options.org);
    var sorted :| && multiset(sorted) == multiset(filtered)
                  && SortedAs(options, sorted)
                  && rows == Limit(sorted, options.limit);
    assert sorted == rows + sorted[|rows|..];
    assert multiset(sorted) == multiset(rows) + multiset(sorted[|rows|..]);
    assert |sorted| == |filtered| by {
      assert |multiset(sorted)| == |sorted| && |multiset(filtered)| == |filtered|;
    }
    forall x | x in rows
      ensures x in filtered
    {
      assert multiset(rows)[x] > 0;
    }
    assert forall k :: 0 <= k < |rows| ==> rows[k] == sorted[k];
  }

  /**
   * The orders the pipeline presents by default (no `reverse`): names and
   * versions ascending, dates and scores descending.
   */
  lemma DefaultOrder(rows: seq<SearchResult>, key: SortBy)
    requires OrderedBackward(SorterOf(key), rows)
    ensures forall k :: 0 < k < |rows| ==>
      && (key == Name ==> LocaleCompare(rows[k - 1].package.name, rows[k].package.name) <= 0)
      && (key == Version ==> LocaleCompare(rows[k - 1].package.version, rows[k].package.version) <= 0)
      && (key == Date ==> rows[k - 1].package.date >= rows[k].package.date)
      && (key == Quality ==> rows[k - 1].score.detail.quality >= rows[k].score.detail.quality)
      && (key == Popularity ==> rows[k - 1].score.detail.popularity >= rows[k].score.detail.popularity)
      && (key == Maintenance ==> rows[k - 1].score.detail.maintenance >= rows[k].score.detail.maintenance)
      && (key == Score ==> rows[k - 1].score.final >= rows[k].score.final)
  {
    forall k | 0 < k < |rows|
      ensures && (key == Name ==> LocaleCompare(rows[k - 1].package.name, rows[k].package.name) <= 0)
              && (key == Version ==> LocaleCompare(rows[k - 1].package.version, rows[k].package.version) <= 0)
    {
      SorterMeaning(key, rows[k], rows[k - 1]);
      LocaleCompareFlip(rows[k - 1].package.name, rows[k].package.name);
      LocaleCompareFlip(rows[k - 1].package.version, rows[k].package.version);
    }
  }

  // ---------------------------------------------------------------- paging

  /** Results per page request. */
  const PageSize: nat := 250

  /** Page `k` of the search: `search(offset, size)` at offset k * PageSize. */
  function Page(search: (int, int) -> seq<SearchResult>, k: nat): seq<SearchResult>
  {
    search(k * PageSize, PageSize)
  }

  /** Pages 0 to n - 1, concatenated in page order. */
  function Accumulated(search: (int, int) -> seq<SearchResult>, n: nat): seq<SearchResult>
  {
    if n == 0 then [] else Accumulated(search, n - 1) + Page(search, n - 1)
  }

  /** Page `m` is the first page with fewer than PageSize results. */
  predicate IsLastPage(search: (int, int) -> seq<SearchResult>, m: nat)
  {
    |Page(search, m)| < PageSize && forall k :: 0 <= k < m ==> |Page(search, k)| >= PageSize
  }

  /**
   * npm-pd's `nextPage`: request page 0, 1, 2, ... until a page comes
   * back short, and return all results in page order. npm-pd recurses
   * without bound when no page is ever short; the model requires that one is.
   */
  method NextPage(search: (int, int) -> seq<SearchResult>) returns (results: seq<SearchResult>, lastPage: nat)
    requires exists m: nat :: |Page(search, m)| < PageSize
    ensures IsLastPage(search, lastPage)
    ensures results == Accumulated(search, lastPage + 1)
  {
    ghost var bound: nat :| |Page(search, bound)| < PageSize;
    var pageNum: nat := 0;
    var page := search(pageNum * PageSize, PageSize);
    results := [];
    while |page| >= PageSize
      invariant pageNum <= bound
      invariant page == Page(search, pageNum)
      invariant results == Accumulated(search, pageNum)
      invariant forall k :: 0 <= k < pageNum ==> |Page(search, k)| >= PageSize
      decreases bound - pageNum
    {
      results := results + page;
      pageNum := pageNum + 1;
      page := search(pageNum * PageSize, PageSize);
    }
    results := results + page;
    lastPage := pageNum;
  }

  /**
   * When every page before the last holds exactly PageSize results, the
   * accumulated list holds m * PageSize results plus those of the last page
   * (pages of 250, 250 and 10 give 510).
   */
  lemma {:induction false} AccumulatedLength(search: (int, int) -> seq<SearchResult>, m: nat)
    requires forall k :: 0 <= k < m ==> |Page(search, k)| == PageSize
    ensures |Accumulated(search, m + 1)| == m * PageSize + |Page(search, m)|
  {
    if m > 0 {
      AccumulatedLength(search, m - 1);
    }
  }

  /** npm-pd's `getPublisher`: fetch every page, then filter, sort and limit. */
  method GetPublisher(search: (int, int) -> seq<SearchResult>, options: PublisherOptions)
    returns (rows: seq<SearchResult>)
    requires exists m: nat :: |Page(search, m)| < PageSize
    ensures exists m: nat :: IsLastPage(search, m) && Presented(rows, Accumulated(search, m + 1), options)
  {
    var results, lastPage := NextPage(search);
    rows := Process(results, options);
  }
}
