/** One iteration of `NewsAPIService::processArticles`, as a function of the store and
    the raw record, and what it promises: empty records are skipped, the source is
    found or created by (name, "newsapi"), every record resolves the "general" category,
    a known URL creates nothing, a new article carries the normalised fields, and at most
    one author is attached. */
module NewsApiMapping {
  import opened Php
  import opened Schema
  import opened Fields
  import Tables

  /** `empty($articleData['title']) || empty($articleData['url'])`. */
  predicate Skips(r: Json) {
    EmptyAt(r, ["title"]) || EmptyAt(r, ["url"])
  }

  /** `$articleData['source']['name'] ?? 'Unknown'`. */
  function SourceName(r: Json): Json {
    Coalesce(r, ["source", "name"], JStr("Unknown"))
  }

  /** `$articleData['source']['id'] ?? null`, used only if the source is created. */
  function SourceApiId(r: Json): Json {
    Coalesce(r, ["source", "id"], JNull)
  }

  /** The source name as the lookup binds it; only meaningful when `BindText` succeeds. */
  function SourceNameText(r: Json): string {
    match BindText(SourceName(r))
    case Ok(name) => name
    case Thrown => ""
  }

  /** `$articleData['author']` as the author lookup binds it. */
  function AuthorName(r: Json): Result<string> {
    BindText(Coalesce(r, ["author"], JNull))
  }

  /** The URL as the lookup and the insert bind it. */
  function Url(r: Json): Result<string> {
    BindText(Coalesce(r, ["url"], JNull))
  }

  /** The article attributes that come from the record alone: `description` and `content`
      are read without `??` (a missing key raises), `image_url` is `urlToImage ?? null`,
      `external_id` is `md5(url)`, and `published_at` is parsed or defaults to now. The
      source and category ids are filled in by `Draft`. */
  function Attributes(lib: Library, r: Json, url: string): (a: Result<Article>)
    ensures a.Ok? ==> a.value.url == url && a.value.externalId == Some(lib.md5(url))
    ensures a.Ok? ==> BindText(Coalesce(r, ["title"], JNull)) == Ok(a.value.title)
    ensures a.Ok? ==> Read(r, "description").Ok? && BindNullable(Read(r, "description").value) == Ok(a.value.description)
    ensures a.Ok? ==> Read(r, "content").Ok? && BindNullable(Read(r, "content").value) == Ok(a.value.content)
    ensures a.Ok? ==> BindNullable(Coalesce(r, ["urlToImage"], JNull)) == Ok(a.value.imageUrl)
    ensures a.Ok? ==> Read(r, "publishedAt").Ok?
    ensures a.Ok? ==> PublishedAt(lib, Read(r, "publishedAt").value).Ok?
    ensures a.Ok? ==> a.value.publishedAt == Some(PublishedAt(lib, Read(r, "publishedAt").value).value)
    ensures Read(r, "description").Thrown? || Read(r, "content").Thrown? || Read(r, "publishedAt").Thrown? ==> a.Thrown?
  {
    var title :- BindText(Coalesce(r, ["title"], JNull));
    var descriptionValue :- Read(r, "description");
    var description :- BindNullable(descriptionValue);
    var contentValue :- Read(r, "content");
    var content :- BindNullable(contentValue);
    var image :- BindNullable(Coalesce(r, ["urlToImage"], JNull));
    var stamp :- Read(r, "publishedAt");
    var published :- PublishedAt(lib, stamp);
    Ok(Article(0, title, description, content, url, image, 0, None, Some(lib.md5(url)), Some(published)))
  }

  /** The part of an iteration after the source and the category are resolved: the URL
      lookup, `Article::create`, and the optional single author. */
  function AfterCategory(lib: Library, db: Db, r: Json, sourceId: nat, categoryId: nat): (s: StepResult)
    ensures Extends(db, s.db) && s.db.sources == db.sources && s.db.categories == db.categories
    ensures !s.outcome.Skipped?
    ensures s.outcome.Saved? ==> s.db.articles == db.articles + [s.outcome.article]
    ensures s.outcome.Saved? ==> s.outcome.article.sourceId == sourceId && s.outcome.article.categoryId == Some(categoryId)
    ensures Tables.NewArticleFresh(db, s.db)
    ensures Valid(db) && 1 <= sourceId <= |db.sources| && 1 <= categoryId <= |db.categories| ==> Valid(s.db)
  {
    match Url(r)
    case Thrown => StepResult(db, Raised)
    case Ok(url) =>
      if Tables.UrlTaken(db.articles, url) then StepResult(db, Duplicate)
      else match Attributes(lib, r, url)
        case Thrown => StepResult(db, Raised)
        case Ok(draft) =>
          var created := Tables.CreateArticle(db, draft.(sourceId := sourceId, categoryId := Some(categoryId)));
          var article := created.db.articles[created.id - 1];
          if EmptyAt(r, ["author"]) then StepResult(created.db, Saved(article))
          else match AuthorName(r)
            case Thrown => StepResult(created.db, Raised)
            case Ok(name) => StepResult(Tables.AttachAuthorNamed(created.db, created.id, name), Saved(article))
  }

  /** One iteration of the loop, the `catch` included. */
  function Step(lib: Library, db: Db, r: Json): (s: StepResult)
    ensures s.outcome.Skipped? <==> Skips(r)
    ensures Skips(r) ==> s.db == db
    ensures Extends(db, s.db)
    ensures s.outcome.Saved? ==> s.db.articles == db.articles + [s.outcome.article]
    ensures Tables.NewArticleFresh(db, s.db)
  {
    if Skips(r) then StepResult(db, Skipped)
    else match BindText(SourceName(r))
      case Thrown => StepResult(db, Raised)
      case Ok(name) =>
        match Tables.FirstOrCreateSource(db, name, NewsApiTag, None, SourceApiId(r))
        case Thrown => StepResult(db, Raised)
        case Ok(source) =>
          var category := Tables.FirstOrCreateCategory(source.db, "general", "General");
          AfterCategory(lib, category.db, r, source.id, category.id)
  }

  // ------------------------------------------------------------------ properties

  /** An iteration keeps the store invariant: ids stay dense and the new article's
      source and category exist. */
  lemma StepKeepsValid(lib: Library, db: Db, r: Json)
    requires Valid(db)
    ensures Valid(Step(lib, db, r).db)
  {
    if !Skips(r) && BindText(SourceName(r)).Ok? {
      var name := BindText(SourceName(r)).value;
      var found := Tables.FirstOrCreateSource(db, name, NewsApiTag, None, SourceApiId(r));
      if found.Ok? {
        var category := Tables.FirstOrCreateCategory(found.value.db, "general", "General");
        assert Valid(category.db);
      }
    }
  }

  /** The source is found or created by (`source.name ?? "Unknown"`, "newsapi"); `api_id`
      comes from `source.id` only when the row is created, and an existing row is never
      modified. */
  lemma SourceResolution(lib: Library, db: Db, r: Json, name: string)
    requires !Skips(r) && BindText(SourceName(r)) == Ok(name)
    ensures var s := Step(lib, db, r);
      if Tables.FindSource(db.sources, name, NewsApiTag).Some? then s.db.sources == db.sources
      else if BindNullable(SourceApiId(r)).Thrown? then s == StepResult(db, Raised)
      else s.db.sources == db.sources + [Source(|db.sources| + 1, name, BindNullable(SourceApiId(r)).value, None, NewsApiTag)]
  {
  }

  /** Every record that gets past the skip and the source resolves the one category with
      slug "general", named "General" only when it is created, duplicates included. */
  lemma GeneralCategory(lib: Library, db: Db, r: Json)
    requires !Skips(r) && Step(lib, db, r) != StepResult(db, Raised)
    ensures var s := Step(lib, db, r);
      s.db.categories == if Tables.FindCategory(db.categories, "general").Some? then db.categories
        else db.categories + [Category(|db.categories| + 1, "General", "general")]
  {
    var name := BindText(SourceName(r)).value;
    var source := Tables.FirstOrCreateSource(db, name, NewsApiTag, None, SourceApiId(r)).value;
    assert source.db.categories == db.categories;
  }

  /** A URL already in the article table (created earlier, possibly in the same batch)
      creates no article, attaches no author and is not reported as saved. */
  lemma KnownUrlCreatesNothing(lib: Library, db: Db, r: Json)
    requires Url(r).Ok? && Tables.UrlTaken(db.articles, Url(r).value)
    ensures var s := Step(lib, db, r);
      !s.outcome.Saved? && s.db.articles == db.articles && s.db.attachments == db.attachments
  {
  }

  /** A saved record got past the skip and both lookups; the rest of the iteration is
      `AfterCategory` on the store they left. */
  lemma SavedAfterLookups(lib: Library, db: Db, r: Json)
    requires Step(lib, db, r).outcome.Saved?
    ensures !Skips(r) && BindText(SourceName(r)).Ok?
    ensures Tables.FirstOrCreateSource(db, SourceNameText(r), NewsApiTag, None, SourceApiId(r)).Ok?
    ensures var source := Tables.FirstOrCreateSource(db, SourceNameText(r), NewsApiTag, None, SourceApiId(r)).value;
      var category := Tables.FirstOrCreateCategory(source.db, "general", "General");
      Step(lib, db, r) == AfterCategory(lib, category.db, r, source.id, category.id)
  {
  }

  /** After the lookups, a saved article is the record's attributes with the resolved
      keys, stored as the new last row; an author is attached only when `author` is set. */
  lemma AfterCategorySaved(lib: Library, d: Db, r: Json, sourceId: nat, categoryId: nat)
    requires AfterCategory(lib, d, r, sourceId, categoryId).outcome.Saved?
    ensures var s := AfterCategory(lib, d, r, sourceId, categoryId); var a := s.outcome.article;
      && Url(r).Ok? && !Tables.UrlTaken(d.articles, Url(r).value) && Attributes(lib, r, Url(r).value).Ok?
      && a == Attributes(lib, r, Url(r).value).value.(id := |d.articles| + 1, sourceId := sourceId, categoryId := Some(categoryId))
      && s.db.articles == d.articles + [a]
  {
  }

  /** After the lookups, a saved record attaches no author when `author` is empty, and
      otherwise one pivot row to the author with exactly that name. */
  lemma AfterCategoryAuthor(lib: Library, d: Db, r: Json, sourceId: nat, categoryId: nat)
    requires AfterCategory(lib, d, r, sourceId, categoryId).outcome.Saved?
    ensures var s := AfterCategory(lib, d, r, sourceId, categoryId); var a := s.outcome.article;
      if EmptyAt(r, ["author"]) then s.db.attachments == d.attachments && s.db.authors == d.authors
      else exists k :: 1 <= k <= |s.db.authors| && AuthorName(r) == Ok(s.db.authors[k - 1].name) && s.db.attachments == d.attachments + [Attachment(a.id, k)]
  {
    if !EmptyAt(r, ["author"]) {
      AfterCategorySaved(lib, d, r, sourceId, categoryId);
      var s := AfterCategory(lib, d, r, sourceId, categoryId);
      var a := s.outcome.article;
      var name := AuthorName(r).value;
      var found := Tables.FirstOrCreateAuthor(d.(articles := d.articles + [a]), name);
      assert s.db == Tables.AttachAuthorNamed(d.(articles := d.articles + [a]), a.id, name);
      assert s.db.authors == found.db.authors;
    }
  }

  /** A saved article is the new last row, and its columns are the record's normalised
      fields: the URL, `md5(url)` as external id, `urlToImage ?? null`, and the parsed or
      defaulted timestamp. */
  lemma SavedArticleColumns(lib: Library, db: Db, r: Json)
    requires Step(lib, db, r).outcome.Saved?
    ensures var s := Step(lib, db, r); var a := s.outcome.article;
      && a.id == |db.articles| + 1 && s.db.articles == db.articles + [a]
      && Url(r) == Ok(a.url) && !Tables.UrlTaken(db.articles, a.url)
      && a.externalId == Some(lib.md5(a.url))
      && BindText(Coalesce(r, ["title"], JNull)) == Ok(a.title)
      && Read(r, "description").Ok? && BindNullable(Read(r, "description").value) == Ok(a.description)
      && Read(r, "content").Ok? && BindNullable(Read(r, "content").value) == Ok(a.content)
      && BindNullable(Coalesce(r, ["urlToImage"], JNull)) == Ok(a.imageUrl)
      && Read(r, "publishedAt").Ok? && PublishedAt(lib, Read(r, "publishedAt").value).Ok?
      && a.publishedAt == Some(PublishedAt(lib, Read(r, "publishedAt").value).value)
  {
    SavedAfterLookups(lib, db, r);
    var source := Tables.FirstOrCreateSource(db, SourceNameText(r), NewsApiTag, None, SourceApiId(r)).value;
    var category := Tables.FirstOrCreateCategory(source.db, "general", "General");
    AfterCategorySaved(lib, category.db, r, source.id, category.id);
    assert category.db.articles == db.articles;
  }

  /** A saved article points at the source found or created by (name, "newsapi") and at
      the category with slug "general". */
  lemma SavedArticleKeys(lib: Library, db: Db, r: Json)
    requires Step(lib, db, r).outcome.Saved?
    ensures Tables.SavedPointsAt(Step(lib, db, r), SourceNameText(r), NewsApiTag, "general")
  {
    SavedAfterLookups(lib, db, r);
    LookupsPointAt(lib, db, r, SourceNameText(r), SourceApiId(r));
  }

  /** The same, for the part of the step that follows the two lookups. */
  lemma LookupsPointAt(lib: Library, db: Db, r: Json, name: string, apiId: Json)
    requires Tables.FirstOrCreateSource(db, name, NewsApiTag, None, apiId).Ok?
    requires var source := Tables.FirstOrCreateSource(db, name, NewsApiTag, None, apiId).value;
      var category := Tables.FirstOrCreateCategory(source.db, "general", "General");
      AfterCategory(lib, category.db, r, source.id, category.id).outcome.Saved?
    ensures var source := Tables.FirstOrCreateSource(db, name, NewsApiTag, None, apiId).value;
      var category := Tables.FirstOrCreateCategory(source.db, "general", "General");
      Tables.SavedPointsAt(AfterCategory(lib, category.db, r, source.id, category.id), name, NewsApiTag, "general")
  {
    var source := Tables.FirstOrCreateSource(db, name, NewsApiTag, None, apiId).value;
    var category := Tables.FirstOrCreateCategory(source.db, "general", "General");
    LookupKeys(db, name, apiId);
    AfterCategoryKeys(lib, category.db, r, source.id, category.id);
  }

  /** After the lookups, a saved article carries the resolved ids, and neither table they
      point into changes. */
  lemma AfterCategoryKeys(lib: Library, d: Db, r: Json, sourceId: nat, categoryId: nat)
    requires AfterCategory(lib, d, r, sourceId, categoryId).outcome.Saved?
    ensures var s := AfterCategory(lib, d, r, sourceId, categoryId);
      && s.outcome.article.sourceId == sourceId && s.outcome.article.categoryId == Some(categoryId)
      && s.db.sources == d.sources && s.db.categories == d.categories
  {
    AfterCategorySaved(lib, d, r, sourceId, categoryId);
  }

  /** The ids the two lookups resolve point at a source with that name and provider and
      at the category with slug "general", in the store they leave. */
  lemma LookupKeys(db: Db, name: string, apiId: Json)
    requires Tables.FirstOrCreateSource(db, name, NewsApiTag, None, apiId).Ok?
    ensures var source := Tables.FirstOrCreateSource(db, name, NewsApiTag, None, apiId).value;
      var category := Tables.FirstOrCreateCategory(source.db, "general", "General");
      && 1 <= source.id <= |category.db.sources| && Tables.SourceIs(category.db.sources[source.id - 1], name, NewsApiTag)
      && 1 <= category.id <= |category.db.categories| && category.db.categories[category.id - 1].slug == "general"
  {
  }

  /** At most one author is attached: the whole `author` string, found or created by
      exact name, and only when it is not empty. */
  lemma SingleAuthor(lib: Library, db: Db, r: Json)
    requires Step(lib, db, r).outcome.Saved?
    ensures var s := Step(lib, db, r); var a := s.outcome.article;
      if EmptyAt(r, ["author"]) then s.db.attachments == db.attachments && s.db.authors == db.authors
      else exists k :: 1 <= k <= |s.db.authors| && AuthorName(r) == Ok(s.db.authors[k - 1].name) && s.db.attachments == db.attachments + [Attachment(a.id, k)]
  {
    SavedAfterLookups(lib, db, r);
    var source := Tables.FirstOrCreateSource(db, SourceNameText(r), NewsApiTag, None, SourceApiId(r)).value;
    var category := Tables.FirstOrCreateCategory(source.db, "general", "General");
    AfterCategoryAuthor(lib, category.db, r, source.id, category.id);
  }

  // ------------------------------------------------------------------ re-running a batch

  /** The record can no longer create an article: it is skipped, or fails in a way that
      depends on the record alone, or its URL is already taken. */
  predicate Settled(lib: Library, db: Db, r: Json) {
    || Skips(r)
    || BindText(SourceName(r)).Thrown?
    || Url(r).Thrown?
    || Tables.UrlTaken(db.articles, Url(r).value)
    || Attributes(lib, r, Url(r).value).Thrown?
  }

  /** The source insert cannot fail on this record's `source.id`. */
  predicate RerunSafe(r: Json) {
    BindNullable(SourceApiId(r)).Ok?
  }

  lemma StepSettles(lib: Library, db: Db, r: Json)
    requires RerunSafe(r)
    ensures Settled(lib, Step(lib, db, r).db, r)
  {
    if !Skips(r) && BindText(SourceName(r)).Ok? && Url(r).Ok? {
      var source := Tables.FirstOrCreateSource(db, SourceNameText(r), NewsApiTag, None, SourceApiId(r)).value;
      var category := Tables.FirstOrCreateCategory(source.db, "general", "General");
      assert Step(lib, db, r) == AfterCategory(lib, category.db, r, source.id, category.id);
      AfterCategorySettles(lib, category.db, r, source.id, category.id);
    }
  }

  /** After the lookups, the record's URL is taken afterwards unless its attributes fail. */
  lemma AfterCategorySettles(lib: Library, d: Db, r: Json, sourceId: nat, categoryId: nat)
    requires Url(r).Ok?
    ensures var s := AfterCategory(lib, d, r, sourceId, categoryId);
      Tables.UrlTaken(s.db.articles, Url(r).value) || Attributes(lib, r, Url(r).value).Thrown?
  {
    var url := Url(r).value;
    var s := AfterCategory(lib, d, r, sourceId, categoryId);
    if Tables.UrlTaken(d.articles, url) {
      Tables.UrlTakenPersists(d.articles, s.db.articles, url);
    } else if Attributes(lib, r, url).Ok? {
      var draft := Attributes(lib, r, url).value;
      var created := Tables.CreateArticle(d, draft.(sourceId := sourceId, categoryId := Some(categoryId)));
      assert created.db.articles[|d.articles|].url == url;
      assert s.db.articles == created.db.articles;
    }
  }

  lemma SettledStepCreatesNothing(lib: Library, db: Db, r: Json)
    requires Settled(lib, db, r)
    ensures var s := Step(lib, db, r);
      !s.outcome.Saved? && s.db.articles == db.articles && s.db.attachments == db.attachments
  {
  }
}
