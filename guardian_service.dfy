/** `GuardianService::processArticles` as it runs: the outer loop over the fetched
    records and the inner loop over each article's tags, both proved against the
    functions of `GuardianMapping` and `Ingestion`. */
module GuardianService {
  import opened Php
  import opened Schema
  import opened Fields
  import opened Database
  import opened GuardianMapping
  import Ingestion

  /** One tag of the loop: only a contributor tag attaches its `webTitle`; `false` when
      reading the tag raises. */
  method AttachTag(store: Store, articleId: nat, tag: Json) returns (ok: bool)
    modifies store
    ensures Progress(store.State(), ok) == TagStep(old(store.State()), articleId, tag)
  {
    var kind := Read(tag, "type");
    if kind.Thrown? {
      return false;
    }
    if kind.value == JStr("contributor") {
      var title := Read(tag, "webTitle");
      if title.Thrown? {
        return false;
      }
      var name := BindText(title.value);
      if name.Thrown? {
        return false;
      }
      var authorId := store.FirstOrCreateAuthor(name.value);
      store.Attach(articleId, authorId);
    }
    return true;
  }

  /** The `foreach` over `tags`; `false` when a tag raises, which ends the loop with the
      pivot rows written so far. */
  method AttachContributors(store: Store, articleId: nat, tags: seq<Json>) returns (ok: bool)
    modifies store
    ensures Progress(store.State(), ok) == Contributors(old(store.State()), articleId, tags)
  {
    var i := 0;
    while i < |tags|
      invariant 0 <= i <= |tags|
      invariant Contributors(old(store.State()), articleId, tags[..i]) == Progress(store.State(), true)
    {
      ContributorsNext(old(store.State()), articleId, tags, i);
      ok := AttachTag(store, articleId, tags[i]);
      if !ok {
        ContributorsStopsAtRaise(old(store.State()), articleId, tags, i + 1);
        return false;
      }
      i := i + 1;
    }
    assert tags[..i] == tags;
    return true;
  }

  /** The body of the `try` block for one record, with the `catch` folded into the
      `Raised` outcome. */
  method ProcessRecord(store: Store, lib: Library, r: Json) returns (outcome: Outcome)
    modifies store
    ensures StepResult(store.State(), outcome) == Step(lib, old(store.State()), r)
  {
    if Skips(r) {
      return Skipped;
    }
    var sourceId := store.FirstOrCreateSource(SourceName, GuardianTag, Some(SourceUrl), JNull);
    var categoryName := CategoryName(r);
    if categoryName.Thrown? {
      return Raised;
    }
    var categoryId := store.FirstOrCreateCategory(lib.slug(categoryName.value), categoryName.value);
    ghost var afterCategory := store.State();
    assert Step(lib, old(store.State()), r) == AfterCategory(lib, afterCategory, r, sourceId.value, categoryId);
    var url := Url(r);
    if url.Thrown? {
      return Raised;
    }
    var known := store.HasUrl(url.value);
    if known {
      return Duplicate;
    }
    var attributes := Attributes(lib, r, url.value);
    if attributes.Thrown? {
      return Raised;
    }
    var articleId := store.CreateArticle(attributes.value.(sourceId := sourceId.value, categoryId := Some(categoryId)));
    var article := store.articles[articleId - 1];
    if !EmptyAt(r, ["tags"]) {
      var tags := Items(Path(r, ["tags"]).value);
      if tags.Thrown? {
        return Raised;
      }
      var ok := AttachContributors(store, articleId, tags.value);
      if !ok {
        return Raised;
      }
    }
    return Saved(article);
  }

  /** The `foreach` over the fetched records; returns `$savedArticles`. */
  method ProcessArticles(store: Store, lib: Library, articles: seq<Json>) returns (saved: seq<Article>)
    modifies store
    ensures Ingestion.Run(store.State(), saved) == Ingestion.Batch(Ingestion.Guardian, lib, old(store.State()), articles)
  {
    saved := [];
    var i := 0;
    while i < |articles|
      invariant 0 <= i <= |articles|
      invariant Ingestion.Run(store.State(), saved) == Ingestion.Batch(Ingestion.Guardian, lib, old(store.State()), articles[..i])
    {
      ghost var before := store.State();
      Ingestion.BatchNext(Ingestion.Guardian, lib, old(store.State()), articles, i);
      var outcome := ProcessRecord(store, lib, articles[i]);
      assert StepResult(store.State(), outcome) == Ingestion.Step(Ingestion.Guardian, lib, before, articles[i]);
      if outcome.Saved? {
        saved := saved + [outcome.article];
      }
      i := i + 1;
    }
    assert articles[..i] == articles;
  }
}
