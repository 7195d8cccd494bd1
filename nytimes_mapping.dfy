/** One iteration of `NYTimesService::processArticles`: the singleton "The New York
    Times" source, a category by the slug of `section_name ?? "General"`, the URL dedup,
    the first multimedia entry with a `url` as image (looked up before the insert), the
    article built from `headline.main`, `abstract`, `web_url` and `pub_date` with no
    content, and one author per byline person with a non-empty trimmed name. */
module NYTimesMapping {
  import opened Php
  import opened Schema
  import opened Fields
  import Tables

  const SourceName := "The New York Times"
  const SourceUrl := "https://www.nytimes.com"
  const ImageHost := "https://static01.nyt.com/"

  /** `empty($articleData['headline']['main']) || empty($articleData['web_url'])`. */
  predicate Skips(r: Json) {
    EmptyAt(r, ["headline", "main"]) || EmptyAt(r, ["web_url"])
  }

  /** `$articleData['section_name'] ?? 'General'`, as the string `Str::slug` receives. */
  function CategoryName(r: Json): Result<string> {
    ToText(Coalesce(r, ["section_name"], JStr("General")))
  }

  function Url(r: Json): Result<string> {
    BindText(Coalesce(r, ["web_url"], JNull))
  }

  /** `isset($media['url'])`. */
  predicate HasUrl(media: Json) {
    IsSet(media, "url")
  }

  /** The `foreach ($articleData['multimedia'] as $media)` loop with its `break`: the
      first entry whose `url` is set gives the static host followed by that URL; no such
      entry gives null. */
  function FirstImage(media: seq<Json>): (r: Result<Option<string>>)
    ensures r == Ok(None) <==> forall i :: 0 <= i < |media| ==> !HasUrl(media[i])
    ensures r != Ok(None) ==> exists i :: 0 <= i < |media| && HasUrl(media[i]) && (forall j :: 0 <= j < i ==> !HasUrl(media[j])) && r == ImageFrom(media[i])
  {
    match Tables.FirstIndex(media, HasUrl)
    case None => Ok(None)
    case Some(i) => ImageFrom(media[i])
  }

  /** `'https://static01.nyt.com/' . $media['url']`: an array `url` raises. */
  function ImageFrom(media: Json): (r: Result<Option<string>>)
    requires HasUrl(media)
    ensures r != Ok(None)
    ensures r.Ok? <==> ToText(Lookup(media, "url").value).Ok?
    ensures r.Ok? ==> r.value == Some(ImageHost + ToText(Lookup(media, "url").value).value)
  {
    var path :- ToText(Lookup(media, "url").value);
    Ok(Some(ImageHost + path))
  }

  /** The image URL, computed before `Article::create`; null when `multimedia` is empty. */
  function Image(r: Json): Result<Option<string>> {
    if EmptyAt(r, ["multimedia"]) then Ok(None)
    else
      var media :- Items(Path(r, ["multimedia"]).value);
      FirstImage(media)
  }

  /** The article attributes taken from the record: `headline.main`, `abstract ?? null`,
      no content, `md5(web_url)` as external id, and `pub_date` (read without `??`)
      parsed or defaulted to now. */
  function Attributes(lib: Library, r: Json, url: string, image: Option<string>): (a: Result<Article>)
    ensures a.Ok? ==> a.value.url == url && a.value.imageUrl == image && a.value.content == None
    ensures a.Ok? ==> a.value.externalId == Some(lib.md5(url))
    ensures a.Ok? ==> BindText(Coalesce(r, ["headline", "main"], JNull)) == Ok(a.value.title)
    ensures a.Ok? ==> BindNullable(Coalesce(r, ["abstract"], JNull)) == Ok(a.value.description)
    ensures a.Ok? ==> Read(r, "pub_date").Ok? && PublishedAt(lib, Read(r, "pub_date").value).Ok?
    ensures a.Ok? ==> a.value.publishedAt == Some(PublishedAt(lib, Read(r, "pub_date").value).value)
    ensures Read(r, "pub_date").Thrown? ==> a.Thrown?
  {
    var title :- BindText(Coalesce(r, ["headline", "main"], JNull));
    var description :- BindNullable(Coalesce(r, ["abstract"], JNull));
    var stamp :- Read(r, "pub_date");
    var published :- PublishedAt(lib, stamp);
    Ok(Article(0, title, description, None, url, image, 0, None, Some(lib.md5(url)), Some(published)))
  }

  /** `trim(($person['firstname'] ?? '') . ' ' . ($person['lastname'] ?? ''))`. */
  function PersonName(person: Json): (r: Result<string>)
    ensures r.Thrown? <==> ToText(Coalesce(person, ["firstname"], JStr(""))).Thrown? || ToText(Coalesce(person, ["lastname"], JStr(""))).Thrown?
    ensures r.Ok? ==> r.value == Trim(ToText(Coalesce(person, ["firstname"], JStr(""))).value + " " + ToText(Coalesce(person, ["lastname"], JStr(""))).value)
  {
    var first :- ToText(Coalesce(person, ["firstname"], JStr("")));
    var last :- ToText(Coalesce(person, ["lastname"], JStr("")));
    Ok(Trim(first + " " + last))
  }

  /** One person of the byline loop: a name that `empty()` rejects is passed over. */
  function PersonStep(db: Db, articleId: nat, person: Json): (p: Progress)
    ensures Extends(db, p.db) && p.db == db.(authors := p.db.authors, attachments := p.db.attachments)
    ensures Valid(db) && 1 <= articleId <= |db.articles| ==> Valid(p.db)
  {
    match PersonName(person)
    case Thrown => Progress(db, false)
    case Ok(name) =>
      if Empty(JStr(name)) then Progress(db, true)
      else Progress(Tables.AttachAuthorNamed(db, articleId, name), true)
  }

  /** The `foreach ($articleData['byline']['person'] as $person)` loop over its first
      `|persons|` entries; the first exception ends it. */
  function Bylines(db: Db, articleId: nat, persons: seq<Json>): (p: Progress)
    ensures Extends(db, p.db) && p.db == db.(authors := p.db.authors, attachments := p.db.attachments)
    ensures Valid(db) && 1 <= articleId <= |db.articles| ==> Valid(p.db)
    decreases |persons|
  {
    if persons == [] then Progress(db, true)
    else
      var before := Bylines(db, articleId, persons[..|persons| - 1]);
      assert |before.db.articles| == |db.articles|;
      if before.ok then PersonStep(before.db, articleId, persons[|persons| - 1]) else before
  }

  /** The loop over one more person is the loop so far followed by that person, unless
      the loop has already stopped. */
  lemma BylinesNext(db: Db, articleId: nat, persons: seq<Json>, i: nat)
    requires i < |persons|
    ensures var before := Bylines(db, articleId, persons[..i]);
      Bylines(db, articleId, persons[..i + 1]) == if before.ok then PersonStep(before.db, articleId, persons[i]) else before
  {
    assert persons[..i + 1][..i] == persons[..i];
  }

  /** After `Article::create`: the byline persons, when `byline.person` is not empty. */
  function AttachBylines(db: Db, r: Json, article: Article): (s: StepResult)
    ensures Extends(db, s.db) && s.db == db.(authors := s.db.authors, attachments := s.db.attachments)
    ensures s.outcome == Saved(article) || s.outcome == Raised
    ensures Valid(db) && 1 <= article.id <= |db.articles| ==> Valid(s.db)
  {
    if EmptyAt(r, ["byline", "person"]) then StepResult(db, Saved(article))
    else match Items(Path(r, ["byline", "person"]).value)
      case Thrown => StepResult(db, Raised)
      case Ok(persons) =>
        var p := Bylines(db, article.id, persons);
        StepResult(p.db, if p.ok then Saved(article) else Raised)
  }

  /** `Article::create` and then the bylines. */
  function Save(db: Db, r: Json, draft: Article): (s: StepResult)
    ensures Extends(db, s.db) && s.db.sources == db.sources && s.db.categories == db.categories
    ensures s.outcome == Saved(draft.(id := |db.articles| + 1)) || s.outcome == Raised
    ensures s.db.articles == db.articles + [draft.(id := |db.articles| + 1)]
    ensures Valid(db) && Tables.KeysExist(db, draft) ==> Valid(s.db)
  {
    var created := Tables.CreateArticle(db, draft);
    AttachBylines(created.db, r, created.db.articles[created.id - 1])
  }

  function AfterCategory(lib: Library, db: Db, r: Json, sourceId: nat, categoryId: nat): (s: StepResult)
    ensures Extends(db, s.db) && s.db.sources == db.sources && s.db.categories == db.categories
    ensures !s.outcome.Skipped?
    ensures s.outcome.Saved? ==> s.db.articles == db.articles + [s.outcome.article]
    ensures s.outcome.Saved? ==> s.outcome.article.sourceId == sourceId && s.outcome.article.categoryId == Some(categoryId)
    ensures Tables.NewArticleFresh(db, s.db)
    ensures Valid(db) && 1 <= sourceId <= |db.sources| && 1 <= categoryId <= |db.categories| ==> Valid(s.db)
  {
    match Url(r)
    case Thrown => StepResult(db, Raised)
    case Ok(url) =>
      if Tables.UrlTaken(db.articles, url) then StepResult(db, Duplicate)
      else match Image(r)
        case Thrown => StepResult(db, Raised)
        case Ok(image) =>
          match Attributes(lib, r, url, image)
          case Thrown => StepResult(db, Raised)
          case Ok(draft) => Save(db, r, draft.(sourceId := sourceId, categoryId := Some(categoryId)))
  }

  /** `Source::firstOrCreate` with the fixed New York Times attributes; it never throws,
      as its `api_id` is null. */
  function TimesSource(db: Db): (r: Tables.Resolved)
    ensures Tables.FirstOrCreateSource(db, SourceName, NYTimesTag, Some(SourceUrl), JNull) == Ok(r)
  {
    Tables.FirstOrCreateSource(db, SourceName, NYTimesTag, Some(SourceUrl), JNull).value
  }

  /** One iteration of the loop, the `catch` included. */
  function Step(lib: Library, db: Db, r: Json): (s: StepResult)
    ensures s.outcome.Skipped? <==> Skips(r)
    ensures Skips(r) ==> s.db == db
    ensures Extends(db, s.db)
    ensures s.outcome.Saved? ==> s.db.articles == db.articles + [s.outcome.article]
    ensures Tables.NewArticleFresh(db, s.db)
  {
    if Skips(r) then StepResult(db, Skipped)
    else
      var source := TimesSource(db);
      match CategoryName(r)
      case Thrown => StepResult(source.db, Raised)
      case Ok(name) =>
        var category := Tables.FirstOrCreateCategory(source.db, lib.slug(name), name);
        AfterCategory(lib, category.db, r, source.id, category.id)
  }

  // ------------------------------------------------------------------ properties

  lemma StepKeepsValid(lib: Library, db: Db, r: Json)
    requires Valid(db)
    ensures Valid(Step(lib, db, r).db)
  {
    if !Skips(r) && CategoryName(r).Ok? {
      var source := TimesSource(db);
      var name := CategoryName(r).value;
      var category := Tables.FirstOrCreateCategory(source.db, lib.slug(name), name);
      assert Valid(category.db);
    }
  }

  /** Every record past the skip resolves the one source named "The New York Times" with
      provider "nytimes", created with the site URL and a null `api_id` only the first
      time. */
  lemma SingletonSource(lib: Library, db: Db, r: Json)
    requires !Skips(r)
    ensures var s := Step(lib, db, r);
      && Tables.FindSource(s.db.sources, SourceName, NYTimesTag).Some?
      && s.db.sources == if Tables.FindSource(db.sources, SourceName, NYTimesTag).Some? then db.sources
        else db.sources + [Source(|db.sources| + 1, SourceName, None, Some(SourceUrl), NYTimesTag)]
  {
    var s := Step(lib, db, r);
    var source := TimesSource(db);
    assert s.db.sources == source.db.sources;
    assert Tables.SourceIs(s.db.sources[source.id - 1], SourceName, NYTimesTag);
  }

  /** The category is looked up by `Str::slug` of `section_name` (or "General"); its name
      is stored only when the slug is new. */
  lemma CategoryBySlug(lib: Library, db: Db, r: Json, name: string)
    requires !Skips(r) && CategoryName(r) == Ok(name)
    ensures var s := Step(lib, db, r);
      s.db.categories == if Tables.FindCategory(db.categories, lib.slug(name)).Some? then db.categories
        else db.categories + [Category(|db.categories| + 1, name, lib.slug(name))]
  {
    var source := TimesSource(db);
    assert source.db.categories == db.categories;
  }

  /** A known `web_url` creates no article and attaches no author. */
  lemma KnownUrlCreatesNothing(lib: Library, db: Db, r: Json)
    requires Url(r).Ok? && Tables.UrlTaken(db.articles, Url(r).value)
    ensures var s := Step(lib, db, r);
      !s.outcome.Saved? && s.db.articles == db.articles && s.db.attachments == db.attachments
  {
  }

  /** A failure while looking for the image happens before `Article::create`: no article
      row is written for the record. */
  lemma ImageFailureCreatesNoArticle(lib: Library, db: Db, r: Json)
    requires Image(r).Thrown?
    ensures var s := Step(lib, db, r); s.outcome.Raised? || s.outcome.Skipped? || s.outcome.Duplicate?
    ensures Step(lib, db, r).db.articles == db.articles
  {
    if !Skips(r) && CategoryName(r).Ok? {
      var source := TimesSource(db);
      var name := CategoryName(r).value;
      var category := Tables.FirstOrCreateCategory(source.db, lib.slug(name), name);
      assert Step(lib, db, r) == AfterCategory(lib, category.db, r, source.id, category.id);
      ImageFailureAfterCategory(lib, category.db, r, source.id, category.id);
    }
  }

  /** After the lookups, an image that raises ends the iteration before the insert. */
  lemma ImageFailureAfterCategory(lib: Library, d: Db, r: Json, sourceId: nat, categoryId: nat)
    requires Image(r).Thrown?
    ensures var s := AfterCategory(lib, d, r, sourceId, categoryId);
      (s.outcome.Raised? || s.outcome.Duplicate?) && s.db.articles == d.articles
  {
  }

  /** A saved step is a `Save` on the store after the source and category lookups,
      which touch neither articles nor pivot rows. */
  lemma SavedStepIsSave(lib: Library, db: Db, r: Json) returns (d: Db, draft: Article)
    requires Step(lib, db, r).outcome.Saved?
    ensures Step(lib, db, r) == Save(d, r, draft)
    ensures d.articles == db.articles && d.attachments == db.attachments
    ensures Url(r) == Ok(draft.url) && Image(r) == Ok(draft.imageUrl)
    ensures Attributes(lib, r, draft.url, draft.imageUrl) == Ok(draft.(sourceId := 0, categoryId := None))
  {
    var s := Step(lib, db, r);
    var source := TimesSource(db);
    var name := CategoryName(r).value;
    var category := Tables.FirstOrCreateCategory(source.db, lib.slug(name), name);
    assert s == AfterCategory(lib, category.db, r, source.id, category.id);
    var url := Url(r).value;
    var image := Image(r).value;
    var attributes := Attributes(lib, r, url, image).value;
    d, draft := category.db, attributes.(sourceId := source.id, categoryId := Some(category.id));
  }

  /** A saved article's columns are the record's fields: `headline.main`, `web_url`,
      `abstract ?? null`, no content, the image from the first multimedia entry with a
      URL, `md5(web_url)` and the parsed or defaulted `pub_date`; it points at the New
      York Times source and the category with the section's slug. */
  lemma SavedArticleColumns(lib: Library, db: Db, r: Json)
    requires Step(lib, db, r).outcome.Saved?
    ensures var s := Step(lib, db, r); var a := s.outcome.article;
      && a.id == |db.articles| + 1 && s.db.articles == db.articles + [a]
      && Url(r) == Ok(a.url) && !Tables.UrlTaken(db.articles, a.url)
      && BindText(Coalesce(r, ["headline", "main"], JNull)) == Ok(a.title)
      && BindNullable(Coalesce(r, ["abstract"], JNull)) == Ok(a.description)
      && a.content == None && Image(r) == Ok(a.imageUrl)
      && a.externalId == Some(lib.md5(a.url))
      && Read(r, "pub_date").Ok? && PublishedAt(lib, Read(r, "pub_date").value).Ok?
      && a.publishedAt == Some(PublishedAt(lib, Read(r, "pub_date").value).value)
  {
    var d, draft := SavedStepIsSave(lib, db, r);
    var attributes := Attributes(lib, r, draft.url, draft.imageUrl).value;
    assert Step(lib, db, r).outcome.article == draft.(id := |db.articles| + 1);
  }

  /** A saved article points at the New York Times source and at the category with the
      section's slug. */
  lemma SavedArticleKeys(lib: Library, db: Db, r: Json)
    requires Step(lib, db, r).outcome.Saved?
    ensures CategoryName(r).Ok?
    ensures Tables.SavedPointsAt(Step(lib, db, r), SourceName, NYTimesTag, lib.slug(CategoryName(r).value))
  {
    SavedAfterLookups(lib, db, r);
    LookupsPointAt(lib, db, r, CategoryName(r).value);
  }

  /** The same, for the part of the step that follows the two lookups. */
  lemma LookupsPointAt(lib: Library, db: Db, r: Json, name: string)
    requires var source := TimesSource(db);
      var category := Tables.FirstOrCreateCategory(source.db, lib.slug(name), name);
      AfterCategory(lib, category.db, r, source.id, category.id).outcome.Saved?
    ensures var source := TimesSource(db);
      var category := Tables.FirstOrCreateCategory(source.db, lib.slug(name), name);
      Tables.SavedPointsAt(AfterCategory(lib, category.db, r, source.id, category.id), SourceName, NYTimesTag, lib.slug(name))
  {
    var source := TimesSource(db);
    var category := Tables.FirstOrCreateCategory(source.db, lib.slug(name), name);
    LookupKeys(db, lib.slug(name), name);
    AfterCategoryKeys(lib, category.db, r, source.id, category.id);
    Tables.PointsAtCarriedOver(AfterCategory(lib, category.db, r, source.id, category.id), category.db, source.id, category.id, SourceName, NYTimesTag, lib.slug(name));
  }

  /** A saved record passed the early checks and was decided after both lookups. */
  lemma SavedAfterLookups(lib: Library, db: Db, r: Json)
    requires Step(lib, db, r).outcome.Saved?
    ensures !Skips(r) && CategoryName(r).Ok?
    ensures var source := TimesSource(db); var name := CategoryName(r).value;
      var category := Tables.FirstOrCreateCategory(source.db, lib.slug(name), name);
      Step(lib, db, r) == AfterCategory(lib, category.db, r, source.id, category.id)
  {
  }

  /** The ids the two lookups resolve point at the New York Times source and at a
      category with that slug, in the store they leave. */
  lemma LookupKeys(db: Db, slug: string, name: string)
    ensures var source := TimesSource(db);
      var category := Tables.FirstOrCreateCategory(source.db, slug, name);
      && 1 <= source.id <= |category.db.sources| && Tables.SourceIs(category.db.sources[source.id - 1], SourceName, NYTimesTag)
      && 1 <= category.id <= |category.db.categories| && category.db.categories[category.id - 1].slug == slug
  {
  }

  /** After the lookups, a saved article carries the resolved ids, and neither table they
      point into changes. */
  lemma AfterCategoryKeys(lib: Library, d: Db, r: Json, sourceId: nat, categoryId: nat)
    requires AfterCategory(lib, d, r, sourceId, categoryId).outcome.Saved?
    ensures var s := AfterCategory(lib, d, r, sourceId, categoryId);
      && s.outcome.article.sourceId == sourceId && s.outcome.article.categoryId == Some(categoryId)
      && s.db.sources == d.sources && s.db.categories == d.categories
  {
  }

  // ------------------------------------------------------------------ byline persons

  /** The names the byline loop attaches, in order, when it runs to the end. */
  function BylineNames(persons: seq<Json>): seq<string>
    decreases |persons|
  {
    if persons == [] then []
    else
      var person := persons[|persons| - 1];
      var rest := BylineNames(persons[..|persons| - 1]);
      if PersonName(person).Ok? && !Empty(JStr(PersonName(person).value)) then rest + [PersonName(person).value] else rest
  }

  /** Every attached name is trimmed and neither "" nor "0". */
  lemma {:induction false} BylineNamesNonEmpty(persons: seq<Json>)
    ensures forall j :: 0 <= j < |BylineNames(persons)| ==> !Empty(JStr(BylineNames(persons)[j]))
    decreases |persons|
  {
    if persons != [] {
      BylineNamesNonEmpty(persons[..|persons| - 1]);
    }
  }

  /** Each person with a non-empty trimmed name attaches one author of that name, in
      byline order; persons whose name is empty attach nothing. */
  lemma {:induction false} BylinesAttachNames(db: Db, articleId: nat, persons: seq<Json>)
    requires Bylines(db, articleId, persons).ok
    ensures AttachedInOrder(|db.attachments|, Bylines(db, articleId, persons).db, articleId, BylineNames(persons))
    decreases |persons|
  {
    if persons != [] {
      var init := persons[..|persons| - 1];
      var person := persons[|persons| - 1];
      var before := Bylines(db, articleId, init);
      BylinesAttachNames(db, articleId, init);
      if !Empty(JStr(PersonName(person).value)) {
        AttachNamedInOrder(|db.attachments|, before.db, articleId, BylineNames(init), PersonName(person).value);
      }
    }
  }

  /** The authors `Save` attaches to the article it creates. */
  lemma SaveAttachesBylines(db: Db, r: Json, draft: Article)
    requires Save(db, r, draft).outcome.Saved?
    ensures var s := Save(db, r, draft);
      if EmptyAt(r, ["byline", "person"]) then s.db.attachments == db.attachments
      else Items(Path(r, ["byline", "person"]).value).Ok? && AttachedInOrder(|db.attachments|, s.db, |db.articles| + 1, BylineNames(Items(Path(r, ["byline", "person"]).value).value))
  {
    var created := Tables.CreateArticle(db, draft);
    if !EmptyAt(r, ["byline", "person"]) {
      BylinesAttachNames(created.db, created.id, Items(Path(r, ["byline", "person"]).value).value);
    }
  }

  /** A saved article gets one author per byline person with a non-empty name, in order,
      and none when `byline.person` is empty. */
  lemma SavedArticleAuthors(lib: Library, db: Db, r: Json)
    requires Step(lib, db, r).outcome.Saved?
    ensures var s := Step(lib, db, r); var a := s.outcome.article;
      if EmptyAt(r, ["byline", "person"]) then s.db.attachments == db.attachments
      else Items(Path(r, ["byline", "person"]).value).Ok? && AttachedInOrder(|db.attachments|, s.db, a.id, BylineNames(Items(Path(r, ["byline", "person"]).value).value))
  {
    var d, draft := SavedStepIsSave(lib, db, r);
    SaveAttachesBylines(d, r, draft);
  }

  /** The loop ends at the first exception: once a prefix of the persons has raised,
      the rest are never looked at. */
  lemma {:induction false} BylinesStopsAtRaise(db: Db, articleId: nat, persons: seq<Json>, i: nat)
    requires i <= |persons| && !Bylines(db, articleId, persons[..i]).ok
    ensures Bylines(db, articleId, persons) == Bylines(db, articleId, persons[..i])
    decreases |persons| - i
  {
    if i < |persons| {
      var init := persons[..|persons| - 1];
      assert init[..i] == persons[..i];
      BylinesStopsAtRaise(db, articleId, init, i);
    } else {
      assert persons[..i] == persons;
    }
  }

  // ------------------------------------------------------------------ re-running a batch

  /** The record can no longer create an article: it is skipped, fails on its own fields,
      or its URL is already taken. */
  predicate Settled(lib: Library, db: Db, r: Json) {
    || Skips(r)
    || CategoryName(r).Thrown?
    || Url(r).Thrown?
    || Tables.UrlTaken(db.articles, Url(r).value)
    || Image(r).Thrown?
    || Attributes(lib, r, Url(r).value, Image(r).value).Thrown?
  }

  lemma StepSettles(lib: Library, db: Db, r: Json)
    ensures Settled(lib, Step(lib, db, r).db, r)
  {
    if !Skips(r) && CategoryName(r).Ok? && Url(r).Ok? && Image(r).Ok? {
      var s := Step(lib, db, r);
      var url := Url(r).value;
      var source := TimesSource(db);
      var name := CategoryName(r).value;
      var category := Tables.FirstOrCreateCategory(source.db, lib.slug(name), name);
      var image := Image(r).value;
      if !Tables.UrlTaken(category.db.articles, url) && Attributes(lib, r, url, image).Ok? {
        var draft := Attributes(lib, r, url, image).value;
        var created := Tables.CreateArticle(category.db, draft.(sourceId := source.id, categoryId := Some(category.id)));
        assert created.db.articles[|created.db.articles| - 1].url == url;
        assert s.db.articles == created.db.articles;
      }
    }
  }

  lemma SettledStepCreatesNothing(lib: Library, db: Db, r: Json)
    requires Settled(lib, db, r)
    ensures var s := Step(lib, db, r);
      !s.outcome.Saved? && s.db.articles == db.articles && s.db.attachments == db.attachments
  {
  }
}
