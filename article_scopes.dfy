/** The five query scopes of the `Article` model and the rows a query selects. A query is
    the list of `where` conditions added to it; Laravel wraps the `orWhere` chain a scope
    adds in its own parentheses, so the conditions of a query combine by AND. Each scope
    adds at most one condition, and none when its argument is falsy in PHP's sense. */
module ArticleScopes {
  import opened Php
  import opened Schema

  /** What the database contributes to a comparison: the calendar day a date string
      denotes (`None` when it is not a date, which matches no row), and a sort key for
      columns other than `published_at`. */
  datatype Engine = Engine(day: string -> Option<int>, column: (string, Article) -> Option<int>)

  datatype Cond =
    | TextSearch(keyword: string)          // scopeSearch
    | OnDay(date: string)                  // scopeByDate
    | CategoryIs(categoryId: string)       // scopeByCategory
    | SourceIs(sourceId: string)           // scopeBySource
    | HasAuthor(authorId: string)          // scopeByAuthor
    | SourceIn(sourceIds: set<nat>)        // feed: whereIn('source_id', ...)
    | CategoryIn(categoryIds: set<nat>)    // feed: whereIn('category_id', ...)
    | HasAnyAuthor(authorIds: set<nat>)    // feed: whereHas('authors', whereIn(...))

  type Query = seq<Cond>

  /** `column LIKE '%keyword%'` on a nullable column: NULL never matches. */
  predicate Mentions(column: Option<string>, keyword: string) {
    column.Some? && Contains(column.value, keyword)
  }

  /** The three-way `orWhere` of `scopeSearch`. */
  predicate SearchHit(a: Article, keyword: string) {
    Contains(a.title, keyword) || Mentions(a.description, keyword) || Mentions(a.content, keyword)
  }

  /** `whereDate('published_at', date)`: NULL never matches. */
  predicate OnDayOf(e: Engine, a: Article, date: string) {
    a.publishedAt.Some? && e.day(date) == Some(Day(a.publishedAt.value))
  }

  /** An integer column compared with a request string: equal when the string is the
      column's decimal numeral. */
  predicate IdIs(id: nat, param: string) {
    param == NatText(id)
  }

  /** The pivot table joins the article to the author row `u`. */
  predicate AuthoredBy(db: Db, a: Article, u: Author) {
    u in db.authors && exists t :: t in db.attachments && t.articleId == a.id && t.authorId == u.id
  }

  /** `whereHas('authors', fn ($q) => $q->where('authors.id', $authorId))`. */
  predicate HasAuthorId(db: Db, a: Article, authorId: string) {
    exists u :: u in db.authors && AuthoredBy(db, a, u) && IdIs(u.id, authorId)
  }

  /** `whereHas('authors', fn ($q) => $q->whereIn('authors.id', $ids))`. */
  predicate HasAuthorAmong(db: Db, a: Article, ids: set<nat>) {
    exists u :: u in db.authors && AuthoredBy(db, a, u) && u.id in ids
  }

  predicate Holds(e: Engine, db: Db, a: Article, c: Cond) {
    match c
    case TextSearch(keyword) => SearchHit(a, keyword)
    case OnDay(date) => OnDayOf(e, a, date)
    case CategoryIs(id) => a.categoryId.Some? && IdIs(a.categoryId.value, id)
    case SourceIs(id) => IdIs(a.sourceId, id)
    case HasAuthor(id) => HasAuthorId(db, a, id)
    case SourceIn(ids) => a.sourceId in ids
    case CategoryIn(ids) => a.categoryId.Some? && a.categoryId.value in ids
    case HasAnyAuthor(ids) => HasAuthorAmong(db, a, ids)
  }

  /** The row satisfies every condition of the query. */
  predicate Matches(e: Engine, db: Db, a: Article, q: Query) {
    forall i :: 0 <= i < |q| ==> Holds(e, db, a, q[i])
  }

  lemma MatchesAppend(e: Engine, db: Db, a: Article, q: Query, c: Cond)
    ensures Matches(e, db, a, q + [c]) <==> Matches(e, db, a, q) && Holds(e, db, a, c)
  {
    if Matches(e, db, a, q) && Holds(e, db, a, c) {
      forall i | 0 <= i < |q + [c]|
        ensures Holds(e, db, a, (q + [c])[i])
      {
        if i < |q| { assert (q + [c])[i] == q[i]; }
      }
    }
    if Matches(e, db, a, q + [c]) {
      forall i | 0 <= i < |q|
        ensures Holds(e, db, a, q[i])
      {
        assert (q + [c])[i] == q[i];
      }
      assert (q + [c])[|q|] == c;
    }
  }

  // ------------------------------------------------------------------ scopes

  /** `scopeSearch`: a truthy keyword keeps the rows whose title, description or content
      contains it; a falsy one leaves the query as it is. */
  function Search(q: Query, keyword: Option<string>): (r: Query)
    ensures !TruthyText(keyword) ==> r == q
    ensures forall e, db, a :: Matches(e, db, a, r) <==> Matches(e, db, a, q) && (TruthyText(keyword) ==> SearchHit(a, keyword.value))
  {
    if TruthyText(keyword) then
      var r := q + [TextSearch(keyword.value)];
      assert forall e, db, a :: Matches(e, db, a, r) <==> Matches(e, db, a, q) && SearchHit(a, keyword.value) by {
        forall e, db, a { MatchesAppend(e, db, a, q, TextSearch(keyword.value)); }
      }
      r
    else q
  }

  /** `scopeByDate`: a truthy date keeps the rows published on that calendar day. */
  function ByDate(q: Query, date: Option<string>): (r: Query)
    ensures !TruthyText(date) ==> r == q
    ensures forall e, db, a :: Matches(e, db, a, r) <==> Matches(e, db, a, q) && (TruthyText(date) ==> OnDayOf(e, a, date.value))
  {
    if TruthyText(date) then
      var r := q + [OnDay(date.value)];
      assert forall e, db, a :: Matches(e, db, a, r) <==> Matches(e, db, a, q) && OnDayOf(e, a, date.value) by {
        forall e, db, a { MatchesAppend(e, db, a, q, OnDay(date.value)); }
      }
      r
    else q
  }

  /** `scopeByCategory`: a truthy id keeps the rows with that `category_id`; a row with no
      category never matches. */
  function ByCategory(q: Query, categoryId: Option<string>): (r: Query)
    ensures !TruthyText(categoryId) ==> r == q
    ensures forall e, db, a :: Matches(e, db, a, r) <==>
      Matches(e, db, a, q) && (TruthyText(categoryId) ==> a.categoryId.Some? && IdIs(a.categoryId.value, categoryId.value))
  {
    if TruthyText(categoryId) then
      var r := q + [CategoryIs(categoryId.value)];
      assert forall e, db, a :: Matches(e, db, a, r) <==> Matches(e, db, a, q) && a.categoryId.Some? && IdIs(a.categoryId.value, categoryId.value) by {
        forall e, db, a { MatchesAppend(e, db, a, q, CategoryIs(categoryId.value)); }
      }
      r
    else q
  }

  /** `scopeBySource`: a truthy id keeps the rows with that `source_id`. */
  function BySource(q: Query, sourceId: Option<string>): (r: Query)
    ensures !TruthyText(sourceId) ==> r == q
    ensures forall e, db, a :: Matches(e, db, a, r) <==> Matches(e, db, a, q) && (TruthyText(sourceId) ==> IdIs(a.sourceId, sourceId.value))
  {
    if TruthyText(sourceId) then
      var r := q + [SourceIs(sourceId.value)];
      assert forall e, db, a :: Matches(e, db, a, r) <==> Matches(e, db, a, q) && IdIs(a.sourceId, sourceId.value) by {
        forall e, db, a { MatchesAppend(e, db, a, q, SourceIs(sourceId.value)); }
      }
      r
    else q
  }

  /** `scopeByAuthor`: a truthy id keeps the rows attached to an author with that id. */
  function ByAuthor(q: Query, authorId: Option<string>): (r: Query)
    ensures !TruthyText(authorId) ==> r == q
    ensures forall e, db, a :: Matches(e, db, a, r) <==>
      Matches(e, db, a, q) && (TruthyText(authorId) ==> HasAuthorId(db, a, authorId.value))
  {
    if TruthyText(authorId) then
      var r := q + [HasAuthor(authorId.value)];
      assert forall e, db, a :: Matches(e, db, a, r) <==> Matches(e, db, a, q) && HasAuthorId(db, a, authorId.value) by {
        forall e, db, a { MatchesAppend(e, db, a, q, HasAuthor(authorId.value)); }
      }
      r
    else q
  }

  // ------------------------------------------------------------------ selected rows

  /** The rows of `rows` that match `q`, in table order. */
  function Select(e: Engine, db: Db, q: Query, rows: seq<Article>): (r: seq<Article>)
    ensures forall a :: a in r <==> a in rows && Matches(e, db, a, q)
    ensures |r| <= |rows|
    decreases |rows|
  {
    if rows == [] then []
    else
      var last := rows[|rows| - 1];
      var init := Select(e, db, q, rows[..|rows| - 1]);
      assert rows == rows[..|rows| - 1] + [last];
      if Matches(e, db, last, q) then init + [last] else init
  }

  /** The articles a query selects, in id order. */
  function Rows(e: Engine, db: Db, q: Query): (r: seq<Article>)
    ensures forall a :: a in r <==> a in db.articles && Matches(e, db, a, q)
  {
    Select(e, db, q, db.articles)
  }

  /** Two queries that accept the same rows select the same list. */
  lemma {:induction false} SelectSameMatches(e: Engine, db: Db, q1: Query, q2: Query, rows: seq<Article>)
    requires forall a :: a in rows ==> (Matches(e, db, a, q1) <==> Matches(e, db, a, q2))
    ensures Select(e, db, q1, rows) == Select(e, db, q2, rows)
    decreases |rows|
  {
    if rows != [] {
      SelectSameMatches(e, db, q1, q2, rows[..|rows| - 1]);
    }
  }

  /** A scope only removes rows: what it selects was selected before. */
  lemma ScopesNarrow(e: Engine, db: Db, q: Query, value: Option<string>)
    ensures forall a :: a in Rows(e, db, Search(q, value)) ==> a in Rows(e, db, q)
    ensures forall a :: a in Rows(e, db, ByDate(q, value)) ==> a in Rows(e, db, q)
    ensures forall a :: a in Rows(e, db, ByCategory(q, value)) ==> a in Rows(e, db, q)
    ensures forall a :: a in Rows(e, db, BySource(q, value)) ==> a in Rows(e, db, q)
    ensures forall a :: a in Rows(e, db, ByAuthor(q, value)) ==> a in Rows(e, db, q)
  {
  }

  /** Applying a scope twice with the same value selects what applying it once does. */
  lemma ScopesIdempotent(e: Engine, db: Db, q: Query, value: Option<string>)
    ensures Rows(e, db, Search(Search(q, value), value)) == Rows(e, db, Search(q, value))
    ensures Rows(e, db, ByDate(ByDate(q, value), value)) == Rows(e, db, ByDate(q, value))
    ensures Rows(e, db, ByCategory(ByCategory(q, value), value)) == Rows(e, db, ByCategory(q, value))
    ensures Rows(e, db, BySource(BySource(q, value), value)) == Rows(e, db, BySource(q, value))
    ensures Rows(e, db, ByAuthor(ByAuthor(q, value), value)) == Rows(e, db, ByAuthor(q, value))
  {
    SelectSameMatches(e, db, Search(Search(q, value), value), Search(q, value), db.articles);
    SelectSameMatches(e, db, ByDate(ByDate(q, value), value), ByDate(q, value), db.articles);
    SelectSameMatches(e, db, ByCategory(ByCategory(q, value), value), ByCategory(q, value), db.articles);
    SelectSameMatches(e, db, BySource(BySource(q, value), value), BySource(q, value), db.articles);
    SelectSameMatches(e, db, ByAuthor(ByAuthor(q, value), value), ByAuthor(q, value), db.articles);
  }

  /** The order in which the listing chains the scopes does not matter. */
  lemma ScopesCommute(e: Engine, db: Db, q: Query, keyword: Option<string>, date: Option<string>)
    ensures Rows(e, db, ByDate(Search(q, keyword), date)) == Rows(e, db, Search(ByDate(q, date), keyword))
  {
    SelectSameMatches(e, db, ByDate(Search(q, keyword), date), Search(ByDate(q, date), keyword), db.articles);
  }
}
