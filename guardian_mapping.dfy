/** One iteration of `GuardianService::processArticles`: the singleton "The Guardian"
    source, a category looked up by the slug of `sectionName ?? "General"`, the URL
    dedup, the article built from `webTitle`, `fields.*`, `id` and
    `webPublicationDate`, and authors from the contributor tags only. */
module GuardianMapping {
  import opened Php
  import opened Schema
  import opened Fields
  import Tables

  const SourceName := "The Guardian"
  const SourceUrl := "https://www.theguardian.com"

  /** `empty($articleData['webTitle']) || empty($articleData['webUrl'])`. */
  predicate Skips(r: Json) {
    EmptyAt(r, ["webTitle"]) || EmptyAt(r, ["webUrl"])
  }

  /** `$articleData['sectionName'] ?? 'General'`, as the string `Str::slug` receives. */
  function CategoryName(r: Json): Result<string> {
    ToText(Coalesce(r, ["sectionName"], JStr("General")))
  }

  function Url(r: Json): Result<string> {
    BindText(Coalesce(r, ["webUrl"], JNull))
  }

  /** The article attributes taken from the record: `fields.trailText`, `fields.body` and
      `fields.thumbnail` each `?? null`, `id` read without `??` as the external id, and
      `webPublicationDate` parsed or defaulted to now. */
  function Attributes(lib: Library, r: Json, url: string): (a: Result<Article>)
    ensures a.Ok? ==> a.value.url == url
    ensures a.Ok? ==> BindText(Coalesce(r, ["webTitle"], JNull)) == Ok(a.value.title)
    ensures a.Ok? ==> BindNullable(Coalesce(r, ["fields", "trailText"], JNull)) == Ok(a.value.description)
    ensures a.Ok? ==> BindNullable(Coalesce(r, ["fields", "body"], JNull)) == Ok(a.value.content)
    ensures a.Ok? ==> BindNullable(Coalesce(r, ["fields", "thumbnail"], JNull)) == Ok(a.value.imageUrl)
    ensures a.Ok? ==> Read(r, "id").Ok? && BindNullable(Read(r, "id").value) == Ok(a.value.externalId)
    ensures a.Ok? ==> Read(r, "webPublicationDate").Ok? && PublishedAt(lib, Read(r, "webPublicationDate").value).Ok?
    ensures a.Ok? ==> a.value.publishedAt == Some(PublishedAt(lib, Read(r, "webPublicationDate").value).value)
    ensures Read(r, "id").Thrown? || Read(r, "webPublicationDate").Thrown? ==> a.Thrown?
  {
    var title :- BindText(Coalesce(r, ["webTitle"], JNull));
    var description :- BindNullable(Coalesce(r, ["fields", "trailText"], JNull));
    var content :- BindNullable(Coalesce(r, ["fields", "body"], JNull));
    var image :- BindNullable(Coalesce(r, ["fields", "thumbnail"], JNull));
    var idValue :- Read(r, "id");
    var externalId :- BindNullable(idValue);
    var stamp :- Read(r, "webPublicationDate");
    var published :- PublishedAt(lib, stamp);
    Ok(Article(0, title, description, content, url, image, 0, None, externalId, Some(published)))
  }

  /** One tag of the inner loop: `$tag['type']` and, for a contributor, `$tag['webTitle']`
      are read without `??`. */
  function TagStep(db: Db, articleId: nat, tag: Json): (p: Progress)
    ensures Extends(db, p.db) && p.db == db.(authors := p.db.authors, attachments := p.db.attachments)
    ensures Valid(db) && 1 <= articleId <= |db.articles| ==> Valid(p.db)
  {
    match Read(tag, "type")
    case Thrown => Progress(db, false)
    case Ok(kind) =>
      if kind != JStr("contributor") then Progress(db, true)
      else match Read(tag, "webTitle")
        case Thrown => Progress(db, false)
        case Ok(title) =>
          match BindText(title)
          case Thrown => Progress(db, false)
          case Ok(name) => Progress(Tables.AttachAuthorNamed(db, articleId, name), true)
  }

  /** The `foreach ($articleData['tags'] as $tag)` loop over its first `|tags|` tags;
      the first exception ends it. */
  function Contributors(db: Db, articleId: nat, tags: seq<Json>): (p: Progress)
    ensures Extends(db, p.db) && p.db == db.(authors := p.db.authors, attachments := p.db.attachments)
    ensures Valid(db) && 1 <= articleId <= |db.articles| ==> Valid(p.db)
    decreases |tags|
  {
    if tags == [] then Progress(db, true)
    else
      var before := Contributors(db, articleId, tags[..|tags| - 1]);
      if before.ok then TagStep(before.db, articleId, tags[|tags| - 1]) else before
  }

  /** The loop over one more tag is the loop so far followed by that tag, unless the
      loop has already stopped. */
  lemma ContributorsNext(db: Db, articleId: nat, tags: seq<Json>, i: nat)
    requires i < |tags|
    ensures var before := Contributors(db, articleId, tags[..i]);
      Contributors(db, articleId, tags[..i + 1]) == if before.ok then TagStep(before.db, articleId, tags[i]) else before
  {
    assert tags[..i + 1][..i] == tags[..i];
  }

  /** After `Article::create`: the contributor tags, when `tags` is not empty. */
  function AttachTags(db: Db, r: Json, article: Article): (s: StepResult)
    ensures Extends(db, s.db) && s.db == db.(authors := s.db.authors, attachments := s.db.attachments)
    ensures s.outcome == Saved(article) || s.outcome == Raised
    ensures Valid(db) && 1 <= article.id <= |db.articles| ==> Valid(s.db)
  {
    if EmptyAt(r, ["tags"]) then StepResult(db, Saved(article))
    else match Items(Path(r, ["tags"]).value)
      case Thrown => StepResult(db, Raised)
      case Ok(tags) =>
        var p := Contributors(db, article.id, tags);
        StepResult(p.db, if p.ok then Saved(article) else Raised)
  }

  /** `Article::create` and then the tags. */
  function Save(db: Db, r: Json, draft: Article): (s: StepResult)
    ensures Extends(db, s.db) && s.db.sources == db.sources && s.db.categories == db.categories
    ensures s.outcome == Saved(draft.(id := |db.articles| + 1)) || s.outcome == Raised
    ensures s.db.articles == db.articles + [draft.(id := |db.articles| + 1)]
    ensures Valid(db) && Tables.KeysExist(db, draft) ==> Valid(s.db)
  {
    var created := Tables.CreateArticle(db, draft);
    AttachTags(created.db, r, created.db.articles[created.id - 1])
  }

  function AfterCategory(lib: Library, db: Db, r: Json, sourceId: nat, categoryId: nat): (s: StepResult)
    ensures Extends(db, s.db) && s.db.sources == db.sources && s.db.categories == db.categories
    ensures !s.outcome.Skipped?
    ensures s.outcome.Saved? ==> s.db.articles == db.articles + [s.outcome.article]
    ensures s.outcome.Saved? ==> s.outcome.article.sourceId == sourceId && s.outcome.article.categoryId == Some(categoryId)
    ensures Tables.NewArticleFresh(db, s.db)
    ensures Valid(db) && 1 <= sourceId <= |db.sources| && 1 <= categoryId <= |db.categories| ==> Valid(s.db)
  {
    match Url(r)
    case Thrown => StepResult(db, Raised)
    case Ok(url) =>
      if Tables.UrlTaken(db.articles, url) then StepResult(db, Duplicate)
      else match Attributes(lib, r, url)
        case Thrown => StepResult(db, Raised)
        case Ok(draft) => Save(db, r, draft.(sourceId := sourceId, categoryId := Some(categoryId)))
  }

  /** `Source::firstOrCreate` with the fixed Guardian attributes; it never throws, as
      its `api_id` is null. */
  function GuardianSource(db: Db): (r: Tables.Resolved)
    ensures Tables.FirstOrCreateSource(db, SourceName, GuardianTag, Some(SourceUrl), JNull) == Ok(r)
  {
    Tables.FirstOrCreateSource(db, SourceName, GuardianTag, Some(SourceUrl), JNull).value
  }

  /** One iteration of the loop, the `catch` included. */
  function Step(lib: Library, db: Db, r: Json): (s: StepResult)
    ensures s.outcome.Skipped? <==> Skips(r)
    ensures Skips(r) ==> s.db == db
    ensures Extends(db, s.db)
    ensures s.outcome.Saved? ==> s.db.articles == db.articles + [s.outcome.article]
    ensures Tables.NewArticleFresh(db, s.db)
  {
    if Skips(r) then StepResult(db, Skipped)
    else
      var source := GuardianSource(db);
      match CategoryName(r)
      case Thrown => StepResult(source.db, Raised)
      case Ok(name) =>
        var category := Tables.FirstOrCreateCategory(source.db, lib.slug(name), name);
        AfterCategory(lib, category.db, r, source.id, category.id)
  }

  // ------------------------------------------------------------------ properties

  lemma StepKeepsValid(lib: Library, db: Db, r: Json)
    requires Valid(db)
    ensures Valid(Step(lib, db, r).db)
  {
    if !Skips(r) && CategoryName(r).Ok? {
      var source := GuardianSource(db);
      var name := CategoryName(r).value;
      var category := Tables.FirstOrCreateCategory(source.db, lib.slug(name), name);
      assert Valid(category.db);
    }
  }

  /** Every record past the skip resolves the one source named "The Guardian" with
      provider "guardian", created with the site URL and a null `api_id` only the first
      time; the lookup never throws. */
  lemma SingletonSource(lib: Library, db: Db, r: Json)
    requires !Skips(r)
    ensures var s := Step(lib, db, r);
      && Tables.FindSource(s.db.sources, SourceName, GuardianTag).Some?
      && s.db.sources == if Tables.FindSource(db.sources, SourceName, GuardianTag).Some? then db.sources
        else db.sources + [Source(|db.sources| + 1, SourceName, None, Some(SourceUrl), GuardianTag)]
  {
    var s := Step(lib, db, r);
    var source := GuardianSource(db);
    assert s.db.sources == source.db.sources;
    var i := source.id - 1;
    assert Tables.SourceIs(s.db.sources[i], SourceName, GuardianTag);
  }

  /** The category is looked up by `Str::slug` of the section name (or "General"); the
      name is stored only when the slug is new, so two section names with one slug share
      one row. */
  lemma CategoryBySlug(lib: Library, db: Db, r: Json, name: string)
    requires !Skips(r) && CategoryName(r) == Ok(name)
    ensures var s := Step(lib, db, r);
      s.db.categories == if Tables.FindCategory(db.categories, lib.slug(name)).Some? then db.categories
        else db.categories + [Category(|db.categories| + 1, name, lib.slug(name))]
  {
    var source := GuardianSource(db);
    assert source.db.categories == db.categories;
  }

  /** A saved article's columns are the record's fields: `webTitle`, `webUrl`,
      `fields.trailText`, `fields.body`, `fields.thumbnail` (each `?? null`), `id` as the
      external id and the parsed or defaulted `webPublicationDate`; its source is the
      Guardian row and its category the one with the section's slug. */
  lemma SavedArticleColumns(lib: Library, db: Db, r: Json)
    requires Step(lib, db, r).outcome.Saved?
    ensures var s := Step(lib, db, r); var a := s.outcome.article;
      && a.id == |db.articles| + 1 && s.db.articles == db.articles + [a]
      && Url(r) == Ok(a.url) && !Tables.UrlTaken(db.articles, a.url)
      && BindText(Coalesce(r, ["webTitle"], JNull)) == Ok(a.title)
      && BindNullable(Coalesce(r, ["fields", "trailText"], JNull)) == Ok(a.description)
      && BindNullable(Coalesce(r, ["fields", "body"], JNull)) == Ok(a.content)
      && BindNullable(Coalesce(r, ["fields", "thumbnail"], JNull)) == Ok(a.imageUrl)
      && Read(r, "id").Ok? && BindNullable(Read(r, "id").value) == Ok(a.externalId)
      && Read(r, "webPublicationDate").Ok? && PublishedAt(lib, Read(r, "webPublicationDate").value).Ok?
      && a.publishedAt == Some(PublishedAt(lib, Read(r, "webPublicationDate").value).value)
  {
    SavedAfterLookups(lib, db, r);
    var source := GuardianSource(db);
    var name := CategoryName(r).value;
    var category := Tables.FirstOrCreateCategory(source.db, lib.slug(name), name);
    LookupKeys(db, lib.slug(name), name);
    AfterCategoryColumns(lib, category.db, r, source.id, category.id);
  }

  /** A saved article points at the Guardian source and at the category with the slug of
      `sectionName ?? 'General'`. */
  lemma SavedArticleKeys(lib: Library, db: Db, r: Json)
    requires Step(lib, db, r).outcome.Saved?
    ensures CategoryName(r).Ok?
    ensures Tables.SavedPointsAt(Step(lib, db, r), SourceName, GuardianTag, lib.slug(CategoryName(r).value))
  {
    SavedAfterLookups(lib, db, r);
    LookupsPointAt(lib, db, r, CategoryName(r).value);
  }

  /** The same, for the part of the step that follows the two lookups. */
  lemma LookupsPointAt(lib: Library, db: Db, r: Json, name: string)
    requires var source := GuardianSource(db);
      var category := Tables.FirstOrCreateCategory(source.db, lib.slug(name), name);
      AfterCategory(lib, category.db, r, source.id, category.id).outcome.Saved?
    ensures var source := GuardianSource(db);
      var category := Tables.FirstOrCreateCategory(source.db, lib.slug(name), name);
      Tables.SavedPointsAt(AfterCategory(lib, category.db, r, source.id, category.id), SourceName, GuardianTag, lib.slug(name))
  {
    var source := GuardianSource(db);
    var category := Tables.FirstOrCreateCategory(source.db, lib.slug(name), name);
    LookupKeys(db, lib.slug(name), name);
    AfterCategoryKeys(lib, category.db, r, source.id, category.id);
    Tables.PointsAtCarriedOver(AfterCategory(lib, category.db, r, source.id, category.id), category.db, source.id, category.id, SourceName, GuardianTag, lib.slug(name));
  }

  /** After the lookups, a saved article carries the resolved ids, and neither table they
      point into changes. */
  lemma AfterCategoryKeys(lib: Library, d: Db, r: Json, sourceId: nat, categoryId: nat)
    requires AfterCategory(lib, d, r, sourceId, categoryId).outcome.Saved?
    ensures var s := AfterCategory(lib, d, r, sourceId, categoryId);
      && s.outcome.article.sourceId == sourceId && s.outcome.article.categoryId == Some(categoryId)
      && s.db.sources == d.sources && s.db.categories == d.categories
  {
  }

  /** A saved record got past the skip and the category name; the rest of the iteration
      is `AfterCategory` on the store the lookups left. */
  lemma SavedAfterLookups(lib: Library, db: Db, r: Json)
    requires Step(lib, db, r).outcome.Saved?
    ensures !Skips(r) && CategoryName(r).Ok?
    ensures var source := GuardianSource(db); var name := CategoryName(r).value;
      var category := Tables.FirstOrCreateCategory(source.db, lib.slug(name), name);
      Step(lib, db, r) == AfterCategory(lib, category.db, r, source.id, category.id)
  {
  }

  /** The ids the two lookups resolve point at the Guardian source and at a category with
      that slug, in the store they leave, which has the same articles. */
  lemma LookupKeys(db: Db, slug: string, name: string)
    ensures var source := GuardianSource(db);
      var category := Tables.FirstOrCreateCategory(source.db, slug, name);
      && category.db.articles == db.articles
      && 1 <= source.id <= |category.db.sources| && Tables.SourceIs(category.db.sources[source.id - 1], SourceName, GuardianTag)
      && 1 <= category.id <= |category.db.categories| && category.db.categories[category.id - 1].slug == slug
  {
  }

  /** After the lookups, a saved article is the record's attributes with the resolved
      keys, stored as the new last row. */
  lemma AfterCategoryColumns(lib: Library, d: Db, r: Json, sourceId: nat, categoryId: nat)
    requires AfterCategory(lib, d, r, sourceId, categoryId).outcome.Saved?
    ensures var s := AfterCategory(lib, d, r, sourceId, categoryId);
      && Url(r).Ok? && !Tables.UrlTaken(d.articles, Url(r).value) && Attributes(lib, r, Url(r).value).Ok?
      && s.outcome.article == Attributes(lib, r, Url(r).value).value.(id := |d.articles| + 1, sourceId := sourceId, categoryId := Some(categoryId))
  {
    var url := Url(r).value;
    var draft := Attributes(lib, r, url).value;
    assert AfterCategory(lib, d, r, sourceId, categoryId) == Save(d, r, draft.(sourceId := sourceId, categoryId := Some(categoryId)));
  }

  /** The record already in the table by `webUrl` creates no article and attaches no
      author (the source and category are still resolved first). */
  lemma KnownUrlCreatesNothing(lib: Library, db: Db, r: Json)
    requires Url(r).Ok? && Tables.UrlTaken(db.articles, Url(r).value)
    ensures var s := Step(lib, db, r);
      !s.outcome.Saved? && s.db.articles == db.articles && s.db.attachments == db.attachments
  {
  }

  // ------------------------------------------------------------------ contributor tags

  /** The tag is a contributor: `$tag['type'] === 'contributor'`, strictly. */
  predicate IsContributor(tag: Json) {
    Read(tag, "type") == Ok(JStr("contributor"))
  }

  /** The names the loop attaches, in tag order, when it runs to the end. */
  function ContributorNames(tags: seq<Json>): seq<string>
    decreases |tags|
  {
    if tags == [] then []
    else
      var tag := tags[|tags| - 1];
      var rest := ContributorNames(tags[..|tags| - 1]);
      if IsContributor(tag) && Read(tag, "webTitle").Ok? && BindText(Read(tag, "webTitle").value).Ok?
      then rest + [BindText(Read(tag, "webTitle").value).value]
      else rest
  }

  /** One tag keeps the pivot rows in step with the contributor names. */
  lemma TagStepAttaches(base: nat, d: Db, articleId: nat, tag: Json, names: seq<string>)
    requires AttachedInOrder(base, d, articleId, names) && TagStep(d, articleId, tag).ok
    ensures var p := TagStep(d, articleId, tag);
      AttachedInOrder(base, p.db, articleId,
        if IsContributor(tag) then names + [BindText(Read(tag, "webTitle").value).value] else names)
  {
    if IsContributor(tag) {
      AttachNamedInOrder(base, d, articleId, names, BindText(Read(tag, "webTitle").value).value);
    }
  }

  /** Only contributor tags attach authors, one pivot row each, in tag order, each to the
      author row that bears the tag's `webTitle`. */
  lemma {:induction false} ContributorsAttachNames(db: Db, articleId: nat, tags: seq<Json>)
    requires Contributors(db, articleId, tags).ok
    ensures AttachedInOrder(|db.attachments|, Contributors(db, articleId, tags).db, articleId, ContributorNames(tags))
    decreases |tags|
  {
    if tags != [] {
      var init := tags[..|tags| - 1];
      var tag := tags[|tags| - 1];
      var before := Contributors(db, articleId, init);
      ContributorsAttachNames(db, articleId, init);
      TagStepAttaches(|db.attachments|, before.db, articleId, tag, ContributorNames(init));
    }
  }

  /** The authors `Save` attaches to the article it creates. */
  lemma SaveAttachesContributors(db: Db, r: Json, draft: Article)
    requires Save(db, r, draft).outcome.Saved?
    ensures var s := Save(db, r, draft);
      if EmptyAt(r, ["tags"]) then s.db.attachments == db.attachments
      else Items(Path(r, ["tags"]).value).Ok? && AttachedInOrder(|db.attachments|, s.db, |db.articles| + 1, ContributorNames(Items(Path(r, ["tags"]).value).value))
  {
    var created := Tables.CreateArticle(db, draft);
    if !EmptyAt(r, ["tags"]) {
      ContributorsAttachNames(created.db, created.id, Items(Path(r, ["tags"]).value).value);
    }
  }

  /** A saved step is a `Save` on the store after the source and category lookups,
      which touch neither articles nor pivot rows. */
  lemma SavedStepIsSave(lib: Library, db: Db, r: Json) returns (d: Db, draft: Article)
    requires Step(lib, db, r).outcome.Saved?
    ensures Step(lib, db, r) == Save(d, r, draft)
    ensures d.articles == db.articles && d.attachments == db.attachments
  {
    var s := Step(lib, db, r);
    var source := GuardianSource(db);
    var name := CategoryName(r).value;
    var category := Tables.FirstOrCreateCategory(source.db, lib.slug(name), name);
    assert s == AfterCategory(lib, category.db, r, source.id, category.id);
    var url := Url(r).value;
    var attributes := Attributes(lib, r, url).value;
    d, draft := category.db, attributes.(sourceId := source.id, categoryId := Some(category.id));
  }

  /** A saved article gets exactly the authors of its contributor tags, in order, and
      none when `tags` is empty. */
  lemma SavedArticleAuthors(lib: Library, db: Db, r: Json)
    requires Step(lib, db, r).outcome.Saved?
    ensures var s := Step(lib, db, r); var a := s.outcome.article;
      if EmptyAt(r, ["tags"]) then s.db.attachments == db.attachments
      else Items(Path(r, ["tags"]).value).Ok? && AttachedInOrder(|db.attachments|, s.db, a.id, ContributorNames(Items(Path(r, ["tags"]).value).value))
  {
    var d, draft := SavedStepIsSave(lib, db, r);
    SaveAttachesContributors(d, r, draft);
  }

  /** The loop ends at the first exception: once a prefix of the tags has raised,
      the rest are never looked at. */
  lemma {:induction false} ContributorsStopsAtRaise(db: Db, articleId: nat, tags: seq<Json>, i: nat)
    requires i <= |tags| && !Contributors(db, articleId, tags[..i]).ok
    ensures Contributors(db, articleId, tags) == Contributors(db, articleId, tags[..i])
    decreases |tags| - i
  {
    if i < |tags| {
      var init := tags[..|tags| - 1];
      assert init[..i] == tags[..i];
      ContributorsStopsAtRaise(db, articleId, init, i);
    } else {
      assert tags[..i] == tags;
    }
  }

  // ------------------------------------------------------------------ re-running a batch

  /** The record can no longer create an article: it is skipped, fails on its own fields,
      or its URL is already taken. */
  predicate Settled(lib: Library, db: Db, r: Json) {
    || Skips(r)
    || CategoryName(r).Thrown?
    || Url(r).Thrown?
    || Tables.UrlTaken(db.articles, Url(r).value)
    || Attributes(lib, r, Url(r).value).Thrown?
  }

  /** After one pass the record is settled: the Guardian source cannot fail, so no
      hypothesis on the record is needed. */
  lemma StepSettles(lib: Library, db: Db, r: Json)
    ensures Settled(lib, Step(lib, db, r).db, r)
  {
    if !Skips(r) && CategoryName(r).Ok? && Url(r).Ok? {
      var s := Step(lib, db, r);
      var url := Url(r).value;
      var source := GuardianSource(db);
      var name := CategoryName(r).value;
      var category := Tables.FirstOrCreateCategory(source.db, lib.slug(name), name);
      if !Tables.UrlTaken(category.db.articles, url) && Attributes(lib, r, url).Ok? {
        var draft := Attributes(lib, r, url).value;
        var created := Tables.CreateArticle(category.db, draft.(sourceId := source.id, categoryId := Some(category.id)));
        assert created.db.articles[|created.db.articles| - 1].url == url;
        assert s.db.articles == created.db.articles;
      }
    }
  }

  lemma SettledStepCreatesNothing(lib: Library, db: Db, r: Json)
    requires Settled(lib, db, r)
    ensures var s := Step(lib, db, r);
      !s.outcome.Saved? && s.db.articles == db.articles && s.db.attachments == db.attachments
  {
  }
}
