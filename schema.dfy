/** The relational schema the ingestion and query code works against: one row type per
    table, the whole store as a value, and the two invariants the store keeps
    (auto-increment ids with no deletes in the entity tables, foreign keys, and the
    unique index on preference triples). */
module Schema {
  import opened Php

  /** A timestamp, in seconds since the Unix epoch (UTC). */
  type Instant = int

  /** The calendar day a timestamp falls on (days since the epoch). */
  function Day(t: Instant): int {
    t / 86400
  }

  /** Provider tags written to `sources.api_provider`. */
  const NewsApiTag := "newsapi"
  const GuardianTag := "guardian"
  const NYTimesTag := "nytimes"

  datatype Source = Source(id: nat, name: string, apiId: Option<string>, url: Option<string>, provider: string)

  datatype Category = Category(id: nat, name: string, slug: string)

  datatype Author = Author(id: nat, name: string, apiId: Option<string>)

  datatype Article = Article(
    id: nat,
    title: string,
    description: Option<string>,
    content: Option<string>,
    url: string,
    imageUrl: Option<string>,
    sourceId: nat,
    categoryId: Option<nat>,
    externalId: Option<string>,
    publishedAt: Option<Instant>)

  /** A row of the `article_author` pivot table. */
  datatype Attachment = Attachment(articleId: nat, authorId: nat)

  datatype PreferenceType = SourcePreference | CategoryPreference | AuthorPreference

  /** A row of `user_preferences`: the triple the unique index covers. */
  datatype Preference = Preference(userId: nat, kind: PreferenceType, preferenceId: nat)

  /** The whole store. */
  datatype Db = Db(
    sources: seq<Source>,
    categories: seq<Category>,
    authors: seq<Author>,
    articles: seq<Article>,
    attachments: seq<Attachment>,
    preferences: seq<Preference>)

  const EmptyDb := Db([], [], [], [], [], [])

  /** The library calls the ingestion code makes, as parameters: `Str::slug`, `md5`,
      `Carbon::parse` (which can fail) and `now()`. */
  datatype Library = Library(
    slug: string -> string,
    md5: string -> string,
    parse: string -> Option<Instant>,
    now: Instant)

  predicate SourceIdsDense(s: seq<Source>) { forall i :: 0 <= i < |s| ==> s[i].id == i + 1 }
  predicate CategoryIdsDense(s: seq<Category>) { forall i :: 0 <= i < |s| ==> s[i].id == i + 1 }
  predicate AuthorIdsDense(s: seq<Author>) { forall i :: 0 <= i < |s| ==> s[i].id == i + 1 }
  predicate ArticleIdsDense(s: seq<Article>) { forall i :: 0 <= i < |s| ==> s[i].id == i + 1 }

  /** Articles reference an existing source and, when set, an existing category. */
  predicate ArticleKeys(db: Db) {
    forall a :: a in db.articles ==>
      1 <= a.sourceId <= |db.sources| &&
      (a.categoryId.Some? ==> 1 <= a.categoryId.value <= |db.categories|)
  }

  /** Pivot rows reference an existing article and an existing author. */
  predicate AttachmentKeys(db: Db) {
    forall t :: t in db.attachments ==>
      1 <= t.articleId <= |db.articles| && 1 <= t.authorId <= |db.authors|
  }

  /** The unique index on `(user_id, preference_type, preference_id)`. */
  predicate PreferencesUnique(ps: seq<Preference>) {
    forall i, j :: 0 <= i < j < |ps| ==> ps[i] != ps[j]
  }

  /** The store invariant. Sources, categories, authors and articles are never deleted,
      so the auto-increment id of a row is its position plus one. */
  predicate Valid(db: Db) {
    && SourceIdsDense(db.sources)
    && CategoryIdsDense(db.categories)
    && AuthorIdsDense(db.authors)
    && ArticleIdsDense(db.articles)
    && ArticleKeys(db)
    && AttachmentKeys(db)
    && PreferencesUnique(db.preferences)
  }

  /** `e` is `d` with rows appended to the ingestion tables and nothing else changed. */
  predicate Extends(d: Db, e: Db) {
    && d.sources <= e.sources
    && d.categories <= e.categories
    && d.authors <= e.authors
    && d.articles <= e.articles
    && d.attachments <= e.attachments
    && d.preferences == e.preferences
  }

  /** What one iteration of a provider's ingestion loop did with its record. */
  datatype Outcome =
    | Skipped             // title or URL empty: `continue` before touching the store
    | Duplicate           // an article with this URL already exists
    | Saved(article: Article)
    | Raised              // an exception, caught by the per-record `catch`

  /** The store after one iteration, and what the iteration did. */
  datatype StepResult = StepResult(db: Db, outcome: Outcome)
}
