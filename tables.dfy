/** The Eloquent operations the ingestion loops perform, as functions on the store value:
    `firstOrCreate` on sources, categories and authors, the URL lookup
    `Article::where('url', ...)->first()`, `Article::create` and `attach`. */
module Tables {
  import opened Php
  import opened Schema

  /** A row found or created, and the store after it. */
  datatype Resolved = Resolved(db: Db, id: nat)

  /** Position of the first row satisfying `p`: what `->first()` returns, in id order. */
  function FirstIndex<T>(s: seq<T>, p: T -> bool): (r: Option<nat>)
    ensures r.Some? ==> r.value < |s| && p(s[r.value])
    ensures r.Some? ==> forall j :: 0 <= j < r.value ==> !p(s[j])
    ensures r.None? ==> forall j :: 0 <= j < |s| ==> !p(s[j])
  {
    if s == [] then None
    else if p(s[0]) then Some(0)
    else match FirstIndex(s[1..], p)
      case None => None
      case Some(i) => Some(i + 1)
  }

  // ---------------------------------------------------------------- sources

  predicate SourceIs(s: Source, name: string, provider: string) {
    s.name == name && s.provider == provider
  }

  /** The article a step saved points at a source row with that name and provider and at
      a category row with that slug. */
  predicate SavedPointsAt(s: StepResult, name: string, provider: string, slug: string) {
    && s.outcome.Saved?
    && var a := s.outcome.article;
    && 1 <= a.sourceId <= |s.db.sources| && SourceIs(s.db.sources[a.sourceId - 1], name, provider)
    && a.categoryId.Some? && 1 <= a.categoryId.value <= |s.db.categories|
    && s.db.categories[a.categoryId.value - 1].slug == slug
  }

  /** A saved result that kept the source and category tables of `d` and carries ids
      pointing there at the given rows points at them too. */
  lemma PointsAtCarriedOver(s: StepResult, d: Db, sourceId: nat, categoryId: nat, name: string, provider: string, slug: string)
    requires s.outcome.Saved? && s.outcome.article.sourceId == sourceId && s.outcome.article.categoryId == Some(categoryId)
    requires s.db.sources == d.sources && s.db.categories == d.categories
    requires 1 <= sourceId <= |d.sources| && SourceIs(d.sources[sourceId - 1], name, provider)
    requires 1 <= categoryId <= |d.categories| && d.categories[categoryId - 1].slug == slug
    ensures SavedPointsAt(s, name, provider, slug)
  {
  }

  function FindSource(sources: seq<Source>, name: string, provider: string): Option<nat> {
    FirstIndex(sources, (s: Source) => SourceIs(s, name, provider))
  }

  /** `Source::firstOrCreate(['name' => name, 'api_provider' => provider],
      ['url' => url, 'api_id' => apiId])`. An existing row is returned untouched; otherwise
      the attributes and the defaults are inserted, and binding a non-scalar `api_id`
      makes the insert throw. */
  function FirstOrCreateSource(db: Db, name: string, provider: string, url: Option<string>, apiId: Json): (r: Result<Resolved>)
    ensures r.Thrown? <==> FindSource(db.sources, name, provider).None? && BindNullable(apiId).Thrown?
    ensures r.Ok? ==> Extends(db, r.value.db) && r.value.db == db.(sources := r.value.db.sources)
    ensures r.Ok? ==> 1 <= r.value.id <= |r.value.db.sources|
    ensures r.Ok? ==> SourceIs(r.value.db.sources[r.value.id - 1], name, provider)
    ensures r.Ok? ==> forall j :: 0 <= j < r.value.id - 1 ==> !SourceIs(r.value.db.sources[j], name, provider)
    ensures FindSource(db.sources, name, provider).Some? ==> r.Ok? && r.value.db == db
    ensures FindSource(db.sources, name, provider).None? && r.Ok? ==>
      r.value.db.sources == db.sources + [Source(|db.sources| + 1, name, BindNullable(apiId).value, url, provider)]
    ensures Valid(db) && r.Ok? ==> Valid(r.value.db)
  {
    match FindSource(db.sources, name, provider)
    case Some(i) => Ok(Resolved(db, i + 1))
    case None =>
      var apiIdText :- BindNullable(apiId);
      var row := Source(|db.sources| + 1, name, apiIdText, url, provider);
      Ok(Resolved(db.(sources := db.sources + [row]), row.id))
  }

  // ---------------------------------------------------------------- categories

  function FindCategory(categories: seq<Category>, slug: string): Option<nat> {
    FirstIndex(categories, (c: Category) => c.slug == slug)
  }

  /** `Category::firstOrCreate(['slug' => slug], ['name' => name])`: the name is used only
      when the row is created. */
  function FirstOrCreateCategory(db: Db, slug: string, name: string): (r: Resolved)
    ensures Extends(db, r.db) && r.db == db.(categories := r.db.categories)
    ensures 1 <= r.id <= |r.db.categories| && r.db.categories[r.id - 1].slug == slug
    ensures forall j :: 0 <= j < r.id - 1 ==> r.db.categories[j].slug != slug
    ensures FindCategory(db.categories, slug).Some? ==> r.db == db
    ensures FindCategory(db.categories, slug).None? ==>
      r.db.categories == db.categories + [Category(|db.categories| + 1, name, slug)]
    ensures Valid(db) ==> Valid(r.db)
  {
    match FindCategory(db.categories, slug)
    case Some(i) => Resolved(db, i + 1)
    case None =>
      var row := Category(|db.categories| + 1, name, slug);
      Resolved(db.(categories := db.categories + [row]), row.id)
  }

  // ---------------------------------------------------------------- authors

  function FindAuthor(authors: seq<Author>, name: string): Option<nat> {
    FirstIndex(authors, (a: Author) => a.name == name)
  }

  /** `Author::firstOrCreate(['name' => name])`: identity is the exact name. */
  function FirstOrCreateAuthor(db: Db, name: string): (r: Resolved)
    ensures Extends(db, r.db) && r.db == db.(authors := r.db.authors)
    ensures 1 <= r.id <= |r.db.authors| && r.db.authors[r.id - 1].name == name
    ensures forall j :: 0 <= j < r.id - 1 ==> r.db.authors[j].name != name
    ensures FindAuthor(db.authors, name).Some? ==> r.db == db
    ensures FindAuthor(db.authors, name).None? ==>
      r.db.authors == db.authors + [Author(|db.authors| + 1, name, None)]
    ensures Valid(db) ==> Valid(r.db)
  {
    match FindAuthor(db.authors, name)
    case Some(i) => Resolved(db, i + 1)
    case None =>
      var row := Author(|db.authors| + 1, name, None);
      Resolved(db.(authors := db.authors + [row]), row.id)
  }

  // ---------------------------------------------------------------- articles

  /** Some article already has exactly this URL. */
  predicate UrlTaken(articles: seq<Article>, url: string) {
    exists i :: 0 <= i < |articles| && articles[i].url == url
  }

  /** Once taken, a URL stays taken as rows are appended. */
  lemma UrlTakenPersists(articles: seq<Article>, more: seq<Article>, url: string)
    requires UrlTaken(articles, url) && articles <= more
    ensures UrlTaken(more, url)
  {
    var i :| 0 <= i < |articles| && articles[i].url == url;
    assert more[i] == articles[i];
  }

  /** No two articles share a URL: what the lookup before every insert maintains. */
  predicate UrlsUnique(articles: seq<Article>) {
    forall i, j :: 0 <= i < j < |articles| ==> articles[i].url != articles[j].url
  }

  /** `e` holds the articles of `d` and at most one more, which has the next id and a
      URL `d` did not have. */
  predicate NewArticleFresh(d: Db, e: Db) {
    && d.articles <= e.articles && |e.articles| <= |d.articles| + 1
    && (|e.articles| == |d.articles| + 1 ==>
          e.articles[|d.articles|].id == |d.articles| + 1 && !UrlTaken(d.articles, e.articles[|d.articles|].url))
  }

  lemma FreshKeepsIdsDense(d: Db, e: Db)
    requires NewArticleFresh(d, e) && ArticleIdsDense(d.articles)
    ensures ArticleIdsDense(e.articles)
  {
    forall i | 0 <= i < |e.articles|
      ensures e.articles[i].id == i + 1
    {
      if i < |d.articles| {
        assert e.articles[i] == d.articles[i];
      }
    }
  }

  lemma FreshKeepsUrlsUnique(d: Db, e: Db)
    requires NewArticleFresh(d, e) && UrlsUnique(d.articles)
    ensures UrlsUnique(e.articles)
  {
    if |e.articles| == |d.articles| + 1 {
      forall i, j | 0 <= i < j < |e.articles|
        ensures e.articles[i].url != e.articles[j].url
      {
        if j == |d.articles| {
          assert e.articles[i] == d.articles[i];
        } else {
          assert e.articles[i] == d.articles[i] && e.articles[j] == d.articles[j];
        }
      }
    } else {
      assert e.articles == d.articles;
    }
  }

  /** `Article::where('url', url)->first()`. */
  function FindByUrl(articles: seq<Article>, url: string): (r: Option<nat>)
    ensures r.Some? <==> UrlTaken(articles, url)
    ensures r.Some? ==> r.value < |articles| && articles[r.value].url == url
  {
    FirstIndex(articles, (a: Article) => a.url == url)
  }

  /** The foreign keys of a new article row point at existing rows. */
  predicate KeysExist(db: Db, a: Article) {
    1 <= a.sourceId <= |db.sources| &&
    (a.categoryId.Some? ==> 1 <= a.categoryId.value <= |db.categories|)
  }

  /** `Article::create(...)`: the row is appended under the next auto-increment id. */
  function CreateArticle(db: Db, a: Article): (r: Resolved)
    ensures Extends(db, r.db) && r.db == db.(articles := r.db.articles)
    ensures r.id == |db.articles| + 1
    ensures r.db.articles == db.articles + [a.(id := r.id)]
    ensures Valid(db) && KeysExist(db, a) ==> Valid(r.db)
  {
    var row := a.(id := |db.articles| + 1);
    Resolved(db.(articles := db.articles + [row]), row.id)
  }

  /** `$article->authors()->attach($authorId)`: one pivot row more. */
  function Attach(db: Db, articleId: nat, authorId: nat): (r: Db)
    ensures Extends(db, r) && r == db.(attachments := db.attachments + [Attachment(articleId, authorId)])
    ensures Valid(db) && 1 <= articleId <= |db.articles| && 1 <= authorId <= |db.authors| ==> Valid(r)
  {
    db.(attachments := db.attachments + [Attachment(articleId, authorId)])
  }

  /** `firstOrCreate` on an author and `attach`, the pair every provider runs per name. */
  function AttachAuthorNamed(db: Db, articleId: nat, name: string): (r: Db)
    ensures Extends(db, r)
    ensures r.attachments == db.attachments + [Attachment(articleId, FirstOrCreateAuthor(db, name).id)]
    ensures r == db.(authors := r.authors, attachments := r.attachments)
    ensures Valid(db) && 1 <= articleId <= |db.articles| ==> Valid(r)
  {
    var author := FirstOrCreateAuthor(db, name);
    Attach(author.db, articleId, author.id)
  }

  // ---------------------------------------------------------------- user preferences

  /** The rows of `user_preferences` that belong to `user` and have type `kind`. */
  predicate OfUserType(p: Preference, user: nat, kind: PreferenceType) {
    p.userId == user && p.kind == kind
  }

  /** `UserPreference::where('user_id', user)->where('preference_type', kind)->delete()`. */
  function DeleteOfType(ps: seq<Preference>, user: nat, kind: PreferenceType): (r: seq<Preference>)
    ensures forall p :: p in r <==> p in ps && !OfUserType(p, user, kind)
    ensures |r| <= |ps|
    ensures PreferencesUnique(ps) ==> PreferencesUnique(r)
    decreases |ps|
  {
    if ps == [] then []
    else
      var rest := DeleteOfType(ps[..|ps| - 1], user, kind);
      var last := ps[|ps| - 1];
      assert ps == ps[..|ps| - 1] + [last];
      if OfUserType(last, user, kind) then rest else rest + [last]
  }

  /** `UserPreference::create(...)`: the unique index rejects a triple already present. */
  function InsertPreference(db: Db, p: Preference): (r: Result<Db>)
    ensures r.Thrown? <==> p in db.preferences
    ensures r.Ok? ==> r.value == db.(preferences := db.preferences + [p])
    ensures Valid(db) && r.Ok? ==> Valid(r.value)
  {
    if p in db.preferences then Thrown
    else Ok(db.(preferences := db.preferences + [p]))
  }
}
