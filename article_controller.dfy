/** `ArticleController`: the article listing (`index`), the single article (`show`) and
    the personalised feed (`personalizedFeed`), without the response cache that wraps
    them. A listing is a query, an `orderBy` on one column and `paginate`. */
module ArticleController {
  import opened Php
  import opened Schema
  import opened ArticleScopes
  import Tables

  /** The query-string parameters the listing reads, as they arrive. `per_page` and
      `page` are taken as integers. */
  datatype ListRequest = ListRequest(
    keyword: Option<string>,
    date: Option<string>,
    categoryId: Option<string>,
    sourceId: Option<string>,
    authorId: Option<string>,
    sortBy: Option<string>,
    sortDirection: Option<string>,
    perPage: Option<int>,
    page: Option<int>)

  const DefaultPerPage := 15

  // ------------------------------------------------------------------ request middleware

  /** A parameter value as the controller can see it: present values are non-empty and
      start and end with a non-blank character. */
  predicate Clean(s: string) {
    s != [] && !Blank(s[0]) && !Blank(s[|s| - 1])
  }

  /** One parameter through `TrimStrings` and then `ConvertEmptyStringsToNull`. */
  function Cleaned(value: Option<string>): (r: Option<string>)
    ensures r.Some? ==> Clean(r.value) && value.Some? && r.value == Trim(value.value)
    ensures r.None? <==> value.None? || Trim(value.value) == ""
  {
    if value.None? then None
    else
      var t := Trim(value.value);
      if t == "" then None else Some(t)
  }

  predicate CleanParameter(value: Option<string>) {
    value.None? || Clean(value.value)
  }

  /** Every text parameter is absent or clean. */
  predicate Normalized(req: ListRequest) {
    && CleanParameter(req.keyword) && CleanParameter(req.date) && CleanParameter(req.categoryId)
    && CleanParameter(req.sourceId) && CleanParameter(req.authorId) && CleanParameter(req.sortBy)
    && CleanParameter(req.sortDirection)
  }

  /** The request the controller reads after the global middleware: every text
      parameter trimmed, and an empty one made null; the integers are untouched. */
  function Received(raw: ListRequest): (req: ListRequest)
    ensures Normalized(req)
    ensures req.perPage == raw.perPage && req.page == raw.page
    ensures req.keyword == Cleaned(raw.keyword) && req.date == Cleaned(raw.date)
    ensures req.sortBy == Cleaned(raw.sortBy) && req.sortDirection == Cleaned(raw.sortDirection)
    ensures req.categoryId == Cleaned(raw.categoryId) && req.sourceId == Cleaned(raw.sourceId)
    ensures req.authorId == Cleaned(raw.authorId)
  {
    raw.(keyword := Cleaned(raw.keyword), date := Cleaned(raw.date), categoryId := Cleaned(raw.categoryId),
      sourceId := Cleaned(raw.sourceId), authorId := Cleaned(raw.authorId), sortBy := Cleaned(raw.sortBy),
      sortDirection := Cleaned(raw.sortDirection))
  }

  /** A clean value goes through the middleware unchanged. */
  lemma CleanedStable(value: Option<string>)
    requires CleanParameter(value)
    ensures Cleaned(value) == value
  {
    if value.Some? {
      var s := value.value;
      assert TrimStart(s) == s;
      assert TrimEnd(s) == s;
    }
  }

  /** The middleware is idempotent: a request it produced passes through it unchanged. */
  lemma ReceivedStable(req: ListRequest)
    requires Normalized(req)
    ensures Received(req) == req
  {
    CleanedStable(req.keyword);
    CleanedStable(req.date);
    CleanedStable(req.categoryId);
    CleanedStable(req.sourceId);
    CleanedStable(req.authorId);
    CleanedStable(req.sortBy);
    CleanedStable(req.sortDirection);
  }

  // ------------------------------------------------------------------ ordering

  /** `$request->sort_direction ?? 'desc'` as the query builder accepts it: "asc" or
      "desc" in any case; anything else makes `orderBy` throw. `Ok(true)` is descending. */
  function Descending(direction: Option<string>): (r: Result<bool>)
    ensures direction.None? ==> r == Ok(true)
    ensures r.Ok? <==> direction.None? || Lower(direction.value) in {"asc", "desc"}
    ensures r == Ok(false) <==> direction.Some? && Lower(direction.value) == "asc"
  {
    var d := Lower(if direction.Some? then direction.value else "desc");
    if d == "asc" then Ok(false)
    else if d == "desc" then Ok(true)
    else Thrown
  }

  /** The sort column's value for a row: `published_at` itself, or the engine's key for
      any other column. */
  function Key(e: Engine, column: string, a: Article): Option<int> {
    if column == "published_at" then a.publishedAt else e.column(column, a)
  }

  /** `x` sorts no later than `y` in ascending order; NULL sorts first. */
  predicate NullsFirstLe(x: Option<int>, y: Option<int>) {
    x.None? || (y.Some? && x.value <= y.value)
  }

  /** `x` may come before `y` under the requested direction. */
  predicate InOrder(x: Option<int>, y: Option<int>, desc: bool) {
    if desc then NullsFirstLe(y, x) else NullsFirstLe(x, y)
  }

  predicate Sorted(e: Engine, column: string, desc: bool, s: seq<Article>) {
    forall i, j :: 0 <= i < j < |s| ==> InOrder(Key(e, column, s[i]), Key(e, column, s[j]), desc)
  }

  /** Places `a` in front of the first element it may precede. */
  function Insert(e: Engine, column: string, desc: bool, a: Article, s: seq<Article>): (r: seq<Article>)
    requires Sorted(e, column, desc, s)
    ensures Sorted(e, column, desc, r)
    ensures multiset(r) == multiset(s) + multiset{a}
    ensures |r| == |s| + 1
    decreases |s|
  {
    if s == [] then [a]
    else if InOrder(Key(e, column, a), Key(e, column, s[0]), desc) then
      [a] + s
    else
      var rest := Insert(e, column, desc, a, s[1..]);
      assert s == [s[0]] + s[1..];
      HeadPrecedes(e, column, desc, s[0], s[1..], a, rest);
      [s[0]] + rest
  }

  /** A row that may precede every row of `pool` and `a` may head a sorted permutation
      of `pool` plus `a`. */
  lemma HeadPrecedes(e: Engine, column: string, desc: bool, x: Article, pool: seq<Article>, a: Article, rest: seq<Article>)
    requires multiset(rest) == multiset(pool) + multiset{a}
    requires Sorted(e, column, desc, rest)
    requires forall j :: 0 <= j < |pool| ==> InOrder(Key(e, column, x), Key(e, column, pool[j]), desc)
    requires InOrder(Key(e, column, x), Key(e, column, a), desc)
    ensures Sorted(e, column, desc, [x] + rest)
    ensures multiset([x] + rest) == multiset([x] + pool) + multiset{a}
  {
    forall k | 0 <= k < |rest|
      ensures InOrder(Key(e, column, x), Key(e, column, rest[k]), desc)
    {
      assert rest[k] in multiset(rest);
      if rest[k] != a {
        assert rest[k] in multiset(pool);
        var j :| 0 <= j < |pool| && pool[j] == rest[k];
      }
    }
    var r := [x] + rest;
    forall i, j | 0 <= i < j < |r|
      ensures InOrder(Key(e, column, r[i]), Key(e, column, r[j]), desc)
    {
      if i > 0 {
        assert r[i] == rest[i - 1] && r[j] == rest[j - 1];
      } else {
        assert r[j] == rest[j - 1];
      }
    }
  }

  /** `orderBy(column, direction)`: the rows in the requested order, each row kept as
      many times as it occurs. */
  function Sort(e: Engine, column: string, desc: bool, s: seq<Article>): (r: seq<Article>)
    ensures Sorted(e, column, desc, r)
    ensures multiset(r) == multiset(s)
    ensures |r| == |s|
    decreases |s|
  {
    if s == [] then []
    else
      assert s == [s[0]] + s[1..];
      Insert(e, column, desc, s[0], Sort(e, column, desc, s[1..]))
  }

  // ------------------------------------------------------------------ pagination

  /** One page of a length-aware paginator: its rows and the `meta` block. */
  datatype Page = Page(items: seq<Article>, currentPage: int, perPage: int, total: nat, lastPage: int)

  /** `$perPage ?: 15` inside `paginate`: an absent or zero `per_page` gives 15. */
  function PageSize(perPage: Option<int>): (n: int)
    ensures perPage.None? || perPage == Some(0) ==> n == DefaultPerPage
    ensures perPage.Some? && perPage.value != 0 ==> n == perPage.value
    ensures n != 0
  {
    if perPage.None? || perPage.value == 0 then DefaultPerPage else perPage.value
  }

  /** The page the paginator resolves: a missing page, or one below 1, is page 1. */
  function CurrentPage(page: Option<int>): (p: int)
    ensures p >= 1
    ensures page.Some? && page.value >= 1 ==> p == page.value
    ensures page.None? || page.value < 1 ==> p == 1
  {
    if page.Some? && page.value >= 1 then page.value else 1
  }

  /** `max(ceil(total / perPage), 1)`: the fewest pages of `size` rows that hold
      `total` rows, and at least one. */
  function LastPage(total: nat, size: int): (n: int)
    requires size != 0
    ensures n >= 1
    ensures size > 0 ==> total <= n * size
    ensures size > 0 && n > 1 ==> (n - 1) * size < total
    ensures size < 0 ==> n == 1
  {
    if size > 0 && total > 0 then
      var q := (total + size - 1) / size;
      var rem := (total + size - 1) % size;
      assert total + size - 1 == q * size + rem && 0 <= rem < size;
      assert (q - 1) * size == q * size - size;
      q
    else 1
  }

  /** Where the requested page starts: exactly `current - 1` full pages precede it. */
  function Offset(current: int, size: int): (o: nat)
    requires current >= 1 && size > 0
    ensures o % size == 0 && o / size == current - 1
    ensures current > 1 ==> o >= size
  {
    WholePages(current - 1, size);
    (current - 1) * size
  }

  /** `n` whole pages of `size` rows end on a page boundary, `n` pages in. */
  lemma WholePages(n: nat, size: int)
    requires size > 0
    ensures n * size >= 0 && (n * size) % size == 0 && (n * size) / size == n
  {
    var x := n * size;
    var d := n - x / size;
    assert x == size * (x / size) + x % size;
    assert size * d == x % size;
  }

  /** At most `size` rows of `sorted` from position `from` on: `offset` and `limit`. */
  function Window(sorted: seq<Article>, from: nat, size: nat): (r: seq<Article>)
    ensures |r| <= size
    ensures from + size <= |sorted| ==> |r| == size
    ensures forall k :: 0 <= k < |r| ==> from + k < |sorted| && r[k] == sorted[from + k]
  {
    if from >= |sorted| then []
    else if from + size <= |sorted| then sorted[from..from + size]
    else sorted[from..]
  }

  /** `paginate`: offset `(page - 1) * perPage` and limit `perPage`; a negative size is a
      limit the query builder ignores, which leaves every row on the one page. */
  function Paginate(sorted: seq<Article>, perPage: Option<int>, page: Option<int>): (r: Page)
    ensures r.total == |sorted| && r.perPage == PageSize(perPage) && r.currentPage == CurrentPage(page)
    ensures r.lastPage == LastPage(|sorted|, r.perPage)
    ensures r.perPage < 0 ==> r.items == sorted
    ensures r.perPage > 0 ==> |r.items| <= r.perPage
    ensures r.perPage > 0 ==> forall k :: 0 <= k < |r.items| ==>
      Offset(r.currentPage, r.perPage) + k < |sorted| && r.items[k] == sorted[Offset(r.currentPage, r.perPage) + k]
  {
    var size := PageSize(perPage);
    var current := CurrentPage(page);
    var items := if size < 0 then sorted else Window(sorted, Offset(current, size), size);
    Page(items, current, size, |sorted|, LastPage(|sorted|, size))
  }

  /** A page holds only rows of the list it was cut from. */
  lemma PageDrawnFrom(sorted: seq<Article>, perPage: Option<int>, page: Option<int>)
    ensures forall a :: a in Paginate(sorted, perPage, page).items ==> a in sorted
  {
    var r := Paginate(sorted, perPage, page);
    forall a | a in r.items ensures a in sorted {
      var k :| 0 <= k < |r.items| && r.items[k] == a;
      if r.perPage > 0 {
        assert sorted[Offset(r.currentPage, r.perPage) + k] == a;
      }
    }
  }

  /** A page of a sorted list is sorted. */
  lemma PageKeepsOrder(e: Engine, column: string, desc: bool, sorted: seq<Article>, perPage: Option<int>, page: Option<int>)
    requires Sorted(e, column, desc, sorted)
    ensures Sorted(e, column, desc, Paginate(sorted, perPage, page).items)
  {
    var size := PageSize(perPage);
    if size > 0 {
      WindowKeepsOrder(e, column, desc, sorted, Offset(CurrentPage(page), size), size);
    }
  }

  /** Consecutive rows of a sorted list are sorted. */
  lemma WindowKeepsOrder(e: Engine, column: string, desc: bool, sorted: seq<Article>, from: nat, size: nat)
    requires Sorted(e, column, desc, sorted)
    ensures Sorted(e, column, desc, Window(sorted, from, size))
  {
    var w := Window(sorted, from, size);
    forall i, j | 0 <= i < j < |w|
      ensures InOrder(Key(e, column, w[i]), Key(e, column, w[j]), desc)
    {
      assert w[i] == sorted[from + i] && w[j] == sorted[from + j];
    }
  }

  /** A position below `n` full pages lies on one of the first `n` pages. */
  lemma PositionBelowPages(k: nat, n: int, size: int)
    requires size > 0 && k < n * size
    ensures k / size < n
  {
    var d := k / size;
    assert d * size <= k;
    assert (n - d) * size == n * size - d * size;
    assert (n - d) * size > 0;
  }

  /** Every row of the sorted list is on the page its position gives, at the matching
      place, and that page is no later than the last one: the pages cut the list into
      consecutive slices and together cover it. */
  lemma RowOnItsPage(sorted: seq<Article>, size: int, k: nat)
    requires size > 0 && k < |sorted|
    ensures var r := Paginate(sorted, Some(size), Some(k / size + 1));
      k % size < |r.items| && r.items[k % size] == sorted[k]
    ensures k / size + 1 <= LastPage(|sorted|, size)
  {
    var p := k / size + 1;
    assert Offset(p, size) + k % size == k;
    PositionBelowPages(k, LastPage(|sorted|, size), size);
  }

  // ------------------------------------------------------------------ listings

  /** `$request->sort_by ?? 'published_at'`. */
  function SortColumn(req: ListRequest): string {
    if req.sortBy.Some? then req.sortBy.value else "published_at"
  }

  /** Sorting keeps the rows: the same members and the same count. */
  lemma SortKeepsRows(e: Engine, column: string, desc: bool, rows: seq<Article>)
    ensures |Sort(e, column, desc, rows)| == |rows|
    ensures forall a :: a in Sort(e, column, desc, rows) <==> a in rows
  {
    var sorted := Sort(e, column, desc, rows);
    assert |sorted| == |multiset(sorted)| == |multiset(rows)| == |rows|;
    forall a ensures a in sorted <==> a in rows {
      assert a in sorted <==> a in multiset(sorted);
      assert a in rows <==> a in multiset(rows);
    }
  }

  /** The sort, pagination and response of a built query: it fails exactly when the
      direction is refused; otherwise `total` counts every row the query selects, the page
      holds only such rows, in the requested order, and at most `per_page` of them. */
  function Listing(e: Engine, db: Db, q: Query, req: ListRequest): (r: Result<Page>)
    ensures r.Thrown? <==> Descending(req.sortDirection).Thrown?
    ensures r.Ok? ==> r.value.total == |Rows(e, db, q)|
    ensures r.Ok? ==> r.value.perPage == PageSize(req.perPage) && r.value.currentPage == CurrentPage(req.page)
    ensures r.Ok? && r.value.perPage > 0 ==> |r.value.items| <= r.value.perPage
    ensures r.Ok? ==> forall a :: a in r.value.items ==> a in db.articles && Matches(e, db, a, q)
    ensures r.Ok? ==> Sorted(e, SortColumn(req), Descending(req.sortDirection).value, r.value.items)
    ensures r.Ok? ==> r.value.lastPage == LastPage(r.value.total, r.value.perPage)
    ensures r.Ok? ==> r.value == Paginate(Sort(e, SortColumn(req), Descending(req.sortDirection).value, Rows(e, db, q)), req.perPage, req.page)
  {
    var desc :- Descending(req.sortDirection);
    var rows := Rows(e, db, q);
    var sorted := Sort(e, SortColumn(req), desc, rows);
    SortKeepsRows(e, SortColumn(req), desc, rows);
    PageDrawnFrom(sorted, req.perPage, req.page);
    PageKeepsOrder(e, SortColumn(req), desc, sorted, req.perPage, req.page);
    Ok(Paginate(sorted, req.perPage, req.page))
  }

  /** `index`: the AND of the five scopes over the request parameters. */
  /** None of the five filter parameters is truthy. */
  predicate NoFilterParameter(req: ListRequest) {
    && !TruthyText(req.keyword) && !TruthyText(req.date) && !TruthyText(req.categoryId)
    && !TruthyText(req.sourceId) && !TruthyText(req.authorId)
  }

  function IndexQuery(req: ListRequest): (r: Query)
    ensures NoFilterParameter(req) ==> r == []
  {
    ByAuthor(BySource(ByCategory(ByDate(Search([], req.keyword), req.date), req.categoryId), req.sourceId), req.authorId)
  }

  /** `index` on the request as it arrives. */
  function Index(e: Engine, db: Db, raw: ListRequest): (r: Result<Page>)
    ensures r.Thrown? <==>
      raw.sortDirection.Some? && Trim(raw.sortDirection.value) != "" && Lower(Trim(raw.sortDirection.value)) !in {"asc", "desc"}
  {
    var req := Received(raw);
    Listing(e, db, IndexQuery(req), req)
  }

  /** An empty or blank `sort_direction` sorts descending, as if it were absent. */
  lemma IndexDirection(e: Engine, db: Db, raw: ListRequest)
    ensures raw.sortDirection.Some? && Trim(raw.sortDirection.value) == "" ==>
      Index(e, db, raw).Ok? && Index(e, db, raw) == Listing(e, db, IndexQuery(Received(raw)), Received(raw).(sortDirection := None))
  {
  }

  /** A blank `sort_by` sorts by `published_at`, and a blank filter parameter filters
      nothing. */
  lemma BlankParametersAbsent(raw: ListRequest)
    ensures raw.sortBy.Some? && Trim(raw.sortBy.value) == "" ==> SortColumn(Received(raw)) == "published_at"
    ensures raw.keyword.Some? && Trim(raw.keyword.value) == "" ==>
      IndexQuery(Received(raw)) == IndexQuery(Received(raw.(keyword := None)))
  {
  }

  /** Five matching rows at two per page: the listing reports three pages, the first
      holds two rows and the third only the fifth row of the sorted matches. */
  lemma FivePerTwo(e: Engine, db: Db, req: ListRequest)
    requires Normalized(req)
    requires |Rows(e, db, IndexQuery(req))| == 5 && req.perPage == Some(2)
    requires Descending(req.sortDirection).Ok?
    ensures var first := Index(e, db, req.(page := None));
      first.Ok? && first.value.lastPage == 3 && first.value.total == 5 && |first.value.items| == 2
    ensures var third := Index(e, db, req.(page := Some(3)));
      third.Ok? && third.value.items == [Sort(e, SortColumn(req), Descending(req.sortDirection).value, Rows(e, db, IndexQuery(req)))[4]]
  {
    var first := req.(page := None);
    var third := req.(page := Some(3));
    ReceivedStable(first);
    ReceivedStable(third);
    assert IndexQuery(first) == IndexQuery(req) == IndexQuery(third);
    assert Index(e, db, first) == Listing(e, db, IndexQuery(req), first);
    assert Index(e, db, third) == Listing(e, db, IndexQuery(req), third);
    var sorted := Sort(e, SortColumn(req), Descending(req.sortDirection).value, Rows(e, db, IndexQuery(req)));
    SortKeepsRows(e, SortColumn(req), Descending(req.sortDirection).value, Rows(e, db, IndexQuery(req)));
    FiveRowsTwoPerPage(sorted);
  }

  /** The paginator's part of the example above. */
  lemma FiveRowsTwoPerPage(sorted: seq<Article>)
    requires |sorted| == 5
    ensures Paginate(sorted, Some(2), None).lastPage == 3
    ensures |Paginate(sorted, Some(2), None).items| == 2
    ensures Paginate(sorted, Some(2), Some(3)).items == [sorted[4]]
  {
  }

  /** A row is listed exactly when it passes each of the five filters whose parameter is
      truthy. */
  lemma IndexFilters(e: Engine, db: Db, req: ListRequest, a: Article)
    ensures Matches(e, db, a, IndexQuery(req)) <==>
      && (TruthyText(req.keyword) ==> SearchHit(a, req.keyword.value))
      && (TruthyText(req.date) ==> OnDayOf(e, a, req.date.value))
      && (TruthyText(req.categoryId) ==> a.categoryId.Some? && IdIs(a.categoryId.value, req.categoryId.value))
      && (TruthyText(req.sourceId) ==> IdIs(a.sourceId, req.sourceId.value))
      && (TruthyText(req.authorId) ==> HasAuthorId(db, a, req.authorId.value))
  {
  }

  /** `show`: `findOrFail($id)` yields the row with that id, or not-found. */
  function Show(db: Db, id: int): (r: Option<Article>)
    ensures r.Some? <==> exists i :: 0 <= i < |db.articles| && db.articles[i].id == id
    ensures r.Some? ==> r.value in db.articles && r.value.id == id
  {
    match Tables.FirstIndex(db.articles, (a: Article) => a.id == id)
    case Some(i) => Some(db.articles[i])
    case None => None
  }

  /** With dense ids, `show` finds exactly the ids 1 to the number of articles. */
  lemma ShowDense(db: Db, id: int)
    requires ArticleIdsDense(db.articles)
    ensures Show(db, id).Some? <==> 1 <= id <= |db.articles|
    ensures Show(db, id).Some? ==> Show(db, id).value == db.articles[id - 1]
  {
    if 1 <= id <= |db.articles| {
      assert db.articles[id - 1].id == id;
    }
  }

  // ------------------------------------------------------------------ personalised feed

  /** Whether a row with id `id` exists in the table a preference type points at. */
  predicate TargetExists(db: Db, kind: PreferenceType, id: nat) {
    match kind
    case SourcePreference => exists s :: s in db.sources && s.id == id
    case CategoryPreference => exists c :: c in db.categories && c.id == id
    case AuthorPreference => exists u :: u in db.authors && u.id == id
  }

  /** `$user->preferredSources()` (and the category and author relations) plucked to ids:
      the `preference_id`s of the user's rows of that type that join a row of the target
      table. */
  function PreferredIds(db: Db, user: nat, kind: PreferenceType): (ids: set<nat>)
    ensures forall x :: x in ids <==>
      (exists p :: p in db.preferences && p == Preference(user, kind, x)) && TargetExists(db, kind, x)
  {
    set p | p in db.preferences && Tables.OfUserType(p, user, kind) && TargetExists(db, kind, p.preferenceId) :: p.preferenceId
  }

  /** The preference filters: one inclusion filter per non-empty set, none at all when
      the user has no preferences. */
  /** The user prefers no source, no category and no author. */
  predicate NoPreferences(db: Db, user: nat) {
    && PreferredIds(db, user, SourcePreference) == {}
    && PreferredIds(db, user, CategoryPreference) == {}
    && PreferredIds(db, user, AuthorPreference) == {}
  }

  function FeedFilters(db: Db, user: nat): (r: Query)
    ensures r == [] <==> NoPreferences(db, user)
  {
    Filters(PreferredIds(db, user, SourcePreference), PreferredIds(db, user, CategoryPreference), PreferredIds(db, user, AuthorPreference))
  }

  function Filters(sources: set<nat>, categories: set<nat>, authors: set<nat>): (r: Query)
    ensures r == [] <==> sources == {} && categories == {} && authors == {}
    ensures |r| <= 3
  {
    var q := (if sources != {} then [SourceIn(sources)] else [])
      + (if categories != {} then [CategoryIn(categories)] else [])
      + (if authors != {} then [HasAnyAuthor(authors)] else []);
    if sources == {} && categories == {} && authors == {} then [] else q
  }

  /** The feed's query: the preference filters, then keyword and date only. */
  function FeedQuery(db: Db, user: nat, req: ListRequest): (r: Query)
    ensures FeedFilters(db, user) == [] ==> r == IndexQuery(req.(categoryId := None, sourceId := None, authorId := None))
  {
    ByDate(Search(FeedFilters(db, user), req.keyword), req.date)
  }

  /** `personalizedFeed` on the request as it arrives. */
  function Feed(e: Engine, db: Db, user: nat, raw: ListRequest): (r: Result<Page>)
    ensures r.Thrown? <==>
      raw.sortDirection.Some? && Trim(raw.sortDirection.value) != "" && Lower(Trim(raw.sortDirection.value)) !in {"asc", "desc"}
  {
    var req := Received(raw);
    Listing(e, db, FeedQuery(db, user, req), req)
  }

  lemma MatchesOne(e: Engine, db: Db, a: Article, c: Cond)
    ensures Matches(e, db, a, [c]) <==> Holds(e, db, a, c)
  {
    assert [c][0] == c;
  }

  lemma MatchesConcat(e: Engine, db: Db, a: Article, q1: Query, q2: Query)
    ensures Matches(e, db, a, q1 + q2) <==> Matches(e, db, a, q1) && Matches(e, db, a, q2)
  {
    if Matches(e, db, a, q1) && Matches(e, db, a, q2) {
      forall i | 0 <= i < |q1 + q2| ensures Holds(e, db, a, (q1 + q2)[i]) {
        if i < |q1| { assert (q1 + q2)[i] == q1[i]; } else { assert (q1 + q2)[i] == q2[i - |q1|]; }
      }
    }
    if Matches(e, db, a, q1 + q2) {
      forall i | 0 <= i < |q1| ensures Holds(e, db, a, q1[i]) { assert (q1 + q2)[i] == q1[i]; }
      forall i | 0 <= i < |q2| ensures Holds(e, db, a, q2[i]) { assert (q1 + q2)[|q1| + i] == q2[i]; }
    }
  }

  /** A row is in the feed exactly when it passes the inclusion filter of every
      non-empty preference set, and the keyword and date filters. */
  lemma FeedFiltersMeaning(e: Engine, db: Db, user: nat, req: ListRequest, a: Article)
    ensures var sources := PreferredIds(db, user, SourcePreference);
      var categories := PreferredIds(db, user, CategoryPreference);
      var authors := PreferredIds(db, user, AuthorPreference);
      Matches(e, db, a, FeedQuery(db, user, req)) <==>
        && (sources != {} ==> a.sourceId in sources)
        && (categories != {} ==> a.categoryId.Some? && a.categoryId.value in categories)
        && (authors != {} ==> HasAuthorAmong(db, a, authors))
        && (TruthyText(req.keyword) ==> SearchHit(a, req.keyword.value))
        && (TruthyText(req.date) ==> OnDayOf(e, a, req.date.value))
  {
    FiltersMeaning(e, db, a, PreferredIds(db, user, SourcePreference), PreferredIds(db, user, CategoryPreference), PreferredIds(db, user, AuthorPreference));
  }

  /** The preference filters pass a row exactly when it is in every non-empty set. */
  lemma FiltersMeaning(e: Engine, db: Db, a: Article, sources: set<nat>, categories: set<nat>, authors: set<nat>)
    ensures Matches(e, db, a, Filters(sources, categories, authors)) <==>
      && (sources != {} ==> a.sourceId in sources)
      && (categories != {} ==> a.categoryId.Some? && a.categoryId.value in categories)
      && (authors != {} ==> HasAuthorAmong(db, a, authors))
  {
    var s: Query := if sources != {} then [SourceIn(sources)] else [];
    var c: Query := if categories != {} then [CategoryIn(categories)] else [];
    var t: Query := if authors != {} then [HasAnyAuthor(authors)] else [];
    MatchesConcat(e, db, a, s, c);
    MatchesConcat(e, db, a, s + c, t);
    assert Filters(sources, categories, authors) == s + c + t;
    if sources != {} { MatchesOne(e, db, a, SourceIn(sources)); }
    if categories != {} { MatchesOne(e, db, a, CategoryIn(categories)); }
    if authors != {} { MatchesOne(e, db, a, HasAnyAuthor(authors)); }
  }

  /** A user with no preferences gets the plain listing narrowed by keyword and date
      only. */
  lemma FeedWithoutPreferences(e: Engine, db: Db, user: nat, req: ListRequest)
    requires PreferredIds(db, user, SourcePreference) == {}
    requires PreferredIds(db, user, CategoryPreference) == {}
    requires PreferredIds(db, user, AuthorPreference) == {}
    ensures Feed(e, db, user, req) == Index(e, db, req.(categoryId := None, sourceId := None, authorId := None))
  {
  }

  /** The feed does not read the `category_id`, `source_id` or `author_id` parameters. */
  lemma FeedIgnoresFilterParams(e: Engine, db: Db, user: nat, req: ListRequest, categoryId: Option<string>, sourceId: Option<string>, authorId: Option<string>)
    ensures Feed(e, db, user, req) == Feed(e, db, user, req.(categoryId := categoryId, sourceId := sourceId, authorId := authorId))
  {
  }
}
