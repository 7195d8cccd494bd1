/** `NewsAPIService::processArticles` as it runs: a loop over the fetched records that
    writes to the store through `firstOrCreate`, the URL lookup, `Article::create` and
    `attach`, proved to leave the store and return the list that `Ingestion.Batch`
    specifies. */
module NewsApiService {
  import opened Php
  import opened Schema
  import opened Database
  import opened NewsApiMapping
  import Ingestion

  /** The body of the `try` block for one record, with the `catch` folded into the
      `Raised` outcome. */
  method ProcessRecord(store: Store, lib: Library, r: Json) returns (outcome: Outcome)
    modifies store
    ensures StepResult(store.State(), outcome) == Step(lib, old(store.State()), r)
  {
    if Skips(r) {
      return Skipped;
    }
    var sourceName := BindText(SourceName(r));
    if sourceName.Thrown? {
      return Raised;
    }
    var sourceId := store.FirstOrCreateSource(sourceName.value, NewsApiTag, None, SourceApiId(r));
    if sourceId.Thrown? {
      return Raised;
    }
    ghost var afterSource := store.State();
    var categoryId := store.FirstOrCreateCategory("general", "General");
    ghost var afterCategory := store.State();
    assert Step(lib, old(store.State()), r) == AfterCategory(lib, afterCategory, r, sourceId.value, categoryId);
    var url := Url(r);
    if url.Thrown? {
      return Raised;
    }
    var known := store.HasUrl(url.value);
    if known {
      return Duplicate;
    }
    var attributes := Attributes(lib, r, url.value);
    if attributes.Thrown? {
      return Raised;
    }
    var articleId := store.CreateArticle(attributes.value.(sourceId := sourceId.value, categoryId := Some(categoryId)));
    var article := store.articles[articleId - 1];
    if !EmptyAt(r, ["author"]) {
      var name := AuthorName(r);
      if name.Thrown? {
        return Raised;
      }
      var authorId := store.FirstOrCreateAuthor(name.value);
      store.Attach(articleId, authorId);
    }
    return Saved(article);
  }

  /** The `foreach` over the fetched records; returns `$savedArticles`. */
  method ProcessArticles(store: Store, lib: Library, articles: seq<Json>) returns (saved: seq<Article>)
    modifies store
    ensures Ingestion.Run(store.State(), saved) == Ingestion.Batch(Ingestion.NewsApi, lib, old(store.State()), articles)
  {
    saved := [];
    var i := 0;
    while i < |articles|
      invariant 0 <= i <= |articles|
      invariant Ingestion.Run(store.State(), saved) == Ingestion.Batch(Ingestion.NewsApi, lib, old(store.State()), articles[..i])
    {
      ghost var before := store.State();
      Ingestion.BatchNext(Ingestion.NewsApi, lib, old(store.State()), articles, i);
      var outcome := ProcessRecord(store, lib, articles[i]);
      assert StepResult(store.State(), outcome) == Ingestion.Step(Ingestion.NewsApi, lib, before, articles[i]);
      if outcome.Saved? {
        saved := saved + [outcome.article];
      }
      i := i + 1;
    }
    assert articles[..i] == articles;
  }
}
