/** `NYTimesService::processArticles` as it runs: the outer loop over the fetched
    records, the multimedia search with its `break`, and the loop over byline persons,
    each proved against the functions of `NYTimesMapping` and `Ingestion`. */
module NYTimesService {
  import opened Php
  import opened Schema
  import opened Fields
  import opened Database
  import opened NYTimesMapping
  import Ingestion

  /** `foreach ($articleData['multimedia'] as $media)` up to the first entry whose `url`
      is set, then `break`. */
  method FindImage(media: seq<Json>) returns (image: Result<Option<string>>)
    ensures image == FirstImage(media)
  {
    var i := 0;
    while i < |media|
      invariant 0 <= i <= |media|
      invariant forall j :: 0 <= j < i ==> !HasUrl(media[j])
    {
      if IsSet(media[i], "url") {
        var path := ToText(Lookup(media[i], "url").value);
        if path.Thrown? {
          return Thrown;
        }
        return Ok(Some(ImageHost + path.value));
      }
      i := i + 1;
    }
    return Ok(None);
  }

  /** One person of the byline loop: a name that `empty()` rejects is passed over;
      `false` when building the name raises. */
  method AttachPerson(store: Store, articleId: nat, person: Json) returns (ok: bool)
    modifies store
    ensures Progress(store.State(), ok) == PersonStep(old(store.State()), articleId, person)
  {
    var first := ToText(Coalesce(person, ["firstname"], JStr("")));
    var last := ToText(Coalesce(person, ["lastname"], JStr("")));
    if first.Thrown? || last.Thrown? {
      return false;
    }
    var name := Trim(first.value + " " + last.value);
    if !Empty(JStr(name)) {
      var authorId := store.FirstOrCreateAuthor(name);
      store.Attach(articleId, authorId);
    }
    return true;
  }

  /** The `foreach` over `byline.person`; `false` when a person raises, which ends the
      loop with the pivot rows written so far. */
  method AttachPersons(store: Store, articleId: nat, persons: seq<Json>) returns (ok: bool)
    modifies store
    ensures Progress(store.State(), ok) == Bylines(old(store.State()), articleId, persons)
  {
    var i := 0;
    while i < |persons|
      invariant 0 <= i <= |persons|
      invariant Bylines(old(store.State()), articleId, persons[..i]) == Progress(store.State(), true)
    {
      BylinesNext(old(store.State()), articleId, persons, i);
      ok := AttachPerson(store, articleId, persons[i]);
      if !ok {
        BylinesStopsAtRaise(old(store.State()), articleId, persons, i + 1);
        return false;
      }
      i := i + 1;
    }
    assert persons[..i] == persons;
    return true;
  }

  /** The body of the `try` block for one record, with the `catch` folded into the
      `Raised` outcome. */
  method ProcessRecord(store: Store, lib: Library, r: Json) returns (outcome: Outcome)
    modifies store
    ensures StepResult(store.State(), outcome) == Step(lib, old(store.State()), r)
  {
    if Skips(r) {
      return Skipped;
    }
    var sourceId := store.FirstOrCreateSource(SourceName, NYTimesTag, Some(SourceUrl), JNull);
    var categoryName := CategoryName(r);
    if categoryName.Thrown? {
      return Raised;
    }
    var categoryId := store.FirstOrCreateCategory(lib.slug(categoryName.value), categoryName.value);
    ghost var afterCategory := store.State();
    assert Step(lib, old(store.State()), r) == AfterCategory(lib, afterCategory, r, sourceId.value, categoryId);
    var url := Url(r);
    if url.Thrown? {
      return Raised;
    }
    var known := store.HasUrl(url.value);
    if known {
      return Duplicate;
    }
    var image: Result<Option<string>> := Ok(None);
    if !EmptyAt(r, ["multimedia"]) {
      var media := Items(Path(r, ["multimedia"]).value);
      if media.Thrown? {
        return Raised;
      }
      image := FindImage(media.value);
    }
    assert image == Image(r);
    if image.Thrown? {
      return Raised;
    }
    var attributes := Attributes(lib, r, url.value, image.value);
    if attributes.Thrown? {
      return Raised;
    }
    var articleId := store.CreateArticle(attributes.value.(sourceId := sourceId.value, categoryId := Some(categoryId)));
    var article := store.articles[articleId - 1];
    if !EmptyAt(r, ["byline", "person"]) {
      var persons := Items(Path(r, ["byline", "person"]).value);
      if persons.Thrown? {
        return Raised;
      }
      var ok := AttachPersons(store, articleId, persons.value);
      if !ok {
        return Raised;
      }
    }
    return Saved(article);
  }

  /** The `foreach` over the fetched records; returns `$savedArticles`. */
  method ProcessArticles(store: Store, lib: Library, articles: seq<Json>) returns (saved: seq<Article>)
    modifies store
    ensures Ingestion.Run(store.State(), saved) == Ingestion.Batch(Ingestion.NYTimes, lib, old(store.State()), articles)
  {
    saved := [];
    var i := 0;
    while i < |articles|
      invariant 0 <= i <= |articles|
      invariant Ingestion.Run(store.State(), saved) == Ingestion.Batch(Ingestion.NYTimes, lib, old(store.State()), articles[..i])
    {
      ghost var before := store.State();
      Ingestion.BatchNext(Ingestion.NYTimes, lib, old(store.State()), articles, i);
      var outcome := ProcessRecord(store, lib, articles[i]);
      assert StepResult(store.State(), outcome) == Ingestion.Step(Ingestion.NYTimes, lib, before, articles[i]);
      if outcome.Saved? {
        saved := saved + [outcome.article];
      }
      i := i + 1;
    }
    assert articles[..i] == articles;
  }
}
