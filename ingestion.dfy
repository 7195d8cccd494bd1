/** The `processArticles` loop common to the three providers: each record is processed
    in order by its provider's step, a failure is confined to its record, and the
    articles created are returned. The properties are about a whole batch: the store
    only grows, the invariant and URL uniqueness are kept, the returned articles are new
    rows in insertion order, and a second run over the same records saves nothing. */
module Ingestion {
  import opened Php
  import opened Schema
  import Tables
  import NewsApiMapping
  import GuardianMapping
  import NYTimesMapping

  datatype Provider = NewsApi | Guardian | NYTimes

  /** The `api_provider` tag a provider writes. */
  function Tag(p: Provider): string {
    match p
    case NewsApi => NewsApiTag
    case Guardian => GuardianTag
    case NYTimes => NYTimesTag
  }

  /** One iteration of the provider's loop body, its `catch` included. */
  function Step(p: Provider, lib: Library, db: Db, r: Json): (s: StepResult)
    ensures Extends(db, s.db) && Tables.NewArticleFresh(db, s.db)
    ensures s.outcome.Saved? ==> s.db.articles == db.articles + [s.outcome.article]
  {
    match p
    case NewsApi => NewsApiMapping.Step(lib, db, r)
    case Guardian => GuardianMapping.Step(lib, db, r)
    case NYTimes => NYTimesMapping.Step(lib, db, r)
  }

  lemma StepKeepsValid(p: Provider, lib: Library, db: Db, r: Json)
    requires Valid(db)
    ensures Valid(Step(p, lib, db, r).db)
  {
    match p
    case NewsApi => NewsApiMapping.StepKeepsValid(lib, db, r);
    case Guardian => GuardianMapping.StepKeepsValid(lib, db, r);
    case NYTimes => NYTimesMapping.StepKeepsValid(lib, db, r);
  }

  /** The store after a loop and the `$savedArticles` it returns. */
  datatype Run = Run(db: Db, saved: seq<Article>)

  /** One more iteration after the run `before`: the record's step, and the article it
      saved appended to the list. */
  function Next(p: Provider, lib: Library, before: Run, x: Json): (r: Run)
    ensures Extends(before.db, r.db)
    ensures |r.saved| <= |before.saved| + 1
  {
    var s := Step(p, lib, before.db, x);
    Run(s.db, before.saved + if s.outcome.Saved? then [s.outcome.article] else [])
  }

  /** The loop over `records`, from the store `db`. */
  function Batch(p: Provider, lib: Library, db: Db, records: seq<Json>): (r: Run)
    ensures Extends(db, r.db)
    ensures |r.saved| <= |records|
    decreases |records|
  {
    if records == [] then Run(db, [])
    else Next(p, lib, Batch(p, lib, db, records[..|records| - 1]), records[|records| - 1])
  }

  /** The loop over one more record is the loop so far followed by that record's step. */
  lemma BatchNext(p: Provider, lib: Library, db: Db, records: seq<Json>, i: nat)
    requires i < |records|
    ensures Batch(p, lib, db, records[..i + 1]) == Next(p, lib, Batch(p, lib, db, records[..i]), records[i])
  {
    assert records[..i + 1][..i] == records[..i];
  }

  /** The loop over `records` and then `x`. */
  lemma BatchSnoc(p: Provider, lib: Library, db: Db, records: seq<Json>, x: Json)
    ensures Batch(p, lib, db, records + [x]) == Next(p, lib, Batch(p, lib, db, records), x)
  {
    assert (records + [x])[..|records|] == records;
  }

  /** Articles returned before a run are carried through one more iteration. */
  lemma NextKeepsPrefix(p: Provider, lib: Library, run: Run, pre: seq<Article>, x: Json)
    ensures Next(p, lib, Run(run.db, pre + run.saved), x) == Run(Next(p, lib, run, x).db, pre + Next(p, lib, run, x).saved)
  {
    var s := Step(p, lib, run.db, x);
    var tail := if s.outcome.Saved? then [s.outcome.article] else [];
    assert (pre + run.saved) + tail == pre + (run.saved + tail);
  }

  /** The returned articles are rows created by this run, in increasing id order, each
      exactly as stored. */
  predicate SavedAreNewRows(db: Db, run: Run) {
    && (forall i :: 0 <= i < |run.saved| ==>
         |db.articles| < run.saved[i].id <= |run.db.articles| && run.db.articles[run.saved[i].id - 1] == run.saved[i])
    && (forall i, j :: 0 <= i < j < |run.saved| ==> run.saved[i].id < run.saved[j].id)
  }

  /** One more step keeps the returned articles new rows in id order. */
  lemma StepSavesNewRow(db: Db, before: Run, s: StepResult)
    requires SavedAreNewRows(db, before) && ArticleIdsDense(before.db.articles)
    requires |db.articles| <= |before.db.articles| && Tables.NewArticleFresh(before.db, s.db)
    requires s.outcome.Saved? ==> s.db.articles == before.db.articles + [s.outcome.article]
    ensures SavedAreNewRows(db, Run(s.db, before.saved + if s.outcome.Saved? then [s.outcome.article] else []))
  {
    var saved := before.saved + if s.outcome.Saved? then [s.outcome.article] else [];
    forall i | 0 <= i < |saved|
      ensures |db.articles| < saved[i].id <= |s.db.articles| && s.db.articles[saved[i].id - 1] == saved[i]
    {
      if i < |before.saved| {
        assert saved[i] == before.saved[i];
        assert s.db.articles[saved[i].id - 1] == before.db.articles[saved[i].id - 1];
      } else {
        assert s.db.articles[|before.db.articles|] == s.outcome.article;
      }
    }
    forall i, j | 0 <= i < j < |saved|
      ensures saved[i].id < saved[j].id
    {
      if j >= |before.saved| {
        assert saved[i] == before.saved[i];
        assert s.db.articles[|before.db.articles|] == s.outcome.article;
      }
    }
  }

  lemma {:induction false} BatchSavesNewRows(p: Provider, lib: Library, db: Db, records: seq<Json>)
    requires ArticleIdsDense(db.articles)
    ensures var r := Batch(p, lib, db, records); ArticleIdsDense(r.db.articles) && SavedAreNewRows(db, r)
    decreases |records|
  {
    if records != [] {
      var before := Batch(p, lib, db, records[..|records| - 1]);
      BatchSavesNewRows(p, lib, db, records[..|records| - 1]);
      var s := Step(p, lib, before.db, records[|records| - 1]);
      Tables.FreshKeepsIdsDense(before.db, s.db);
      StepSavesNewRow(db, before, s);
    }
  }

  /** Processing `xs` and then `ys` is processing `xs + ys`. */
  lemma {:induction false} BatchAppend(p: Provider, lib: Library, db: Db, xs: seq<Json>, ys: seq<Json>)
    ensures var first := Batch(p, lib, db, xs); var second := Batch(p, lib, first.db, ys);
      Batch(p, lib, db, xs + ys) == Run(second.db, first.saved + second.saved)
    decreases |ys|
  {
    if ys == [] {
      assert xs + ys == xs;
    } else {
      var init := ys[..|ys| - 1];
      var last := ys[|ys| - 1];
      assert ys == init + [last];
      assert xs + ys == (xs + init) + [last];
      BatchAppend(p, lib, db, xs, init);
      var first := Batch(p, lib, db, xs);
      var mid := Batch(p, lib, first.db, init);
      BatchSnoc(p, lib, first.db, init, last);
      BatchSnoc(p, lib, db, xs + init, last);
      NextKeepsPrefix(p, lib, mid, first.saved, last);
    }
  }

  lemma {:induction false} BatchKeepsValid(p: Provider, lib: Library, db: Db, records: seq<Json>)
    requires Valid(db)
    ensures Valid(Batch(p, lib, db, records).db)
    decreases |records|
  {
    if records != [] {
      var before := Batch(p, lib, db, records[..|records| - 1]);
      BatchKeepsValid(p, lib, db, records[..|records| - 1]);
      StepKeepsValid(p, lib, before.db, records[|records| - 1]);
    }
  }

  /** No two articles share a URL before a batch, so none do after it: the same URL
      twice in one batch, or already stored, yields one row. */
  lemma {:induction false} BatchKeepsUrlsUnique(p: Provider, lib: Library, db: Db, records: seq<Json>)
    requires Tables.UrlsUnique(db.articles)
    ensures Tables.UrlsUnique(Batch(p, lib, db, records).db.articles)
    decreases |records|
  {
    if records != [] {
      var before := Batch(p, lib, db, records[..|records| - 1]);
      BatchKeepsUrlsUnique(p, lib, db, records[..|records| - 1]);
      Tables.FreshKeepsUrlsUnique(before.db, Step(p, lib, before.db, records[|records| - 1]).db);
    }
  }

  // ------------------------------------------------------------------ re-running a batch

  /** The record can no longer create an article in `db`. */
  predicate Settled(p: Provider, lib: Library, db: Db, r: Json) {
    match p
    case NewsApi => NewsApiMapping.Settled(lib, db, r)
    case Guardian => GuardianMapping.Settled(lib, db, r)
    case NYTimes => NYTimesMapping.Settled(lib, db, r)
  }

  /** A failure on the record cannot turn into a success once other records have run:
      only a NewsAPI source insert that fails on `source.id` can, when a later record
      creates the same source. */
  predicate RerunSafe(p: Provider, r: Json) {
    p.NewsApi? ==> NewsApiMapping.RerunSafe(r)
  }

  lemma StepSettles(p: Provider, lib: Library, db: Db, r: Json)
    requires RerunSafe(p, r)
    ensures Settled(p, lib, Step(p, lib, db, r).db, r)
  {
    match p
    case NewsApi => NewsApiMapping.StepSettles(lib, db, r);
    case Guardian => GuardianMapping.StepSettles(lib, db, r);
    case NYTimes => NYTimesMapping.StepSettles(lib, db, r);
  }

  /** A settled record stays settled as the store grows. */
  lemma SettledPersists(p: Provider, lib: Library, db: Db, more: Db, r: Json)
    requires Settled(p, lib, db, r) && Extends(db, more)
    ensures Settled(p, lib, more, r)
  {
    match p
    case NewsApi =>
      if NewsApiMapping.Url(r).Ok? && Tables.UrlTaken(db.articles, NewsApiMapping.Url(r).value) {
        Tables.UrlTakenPersists(db.articles, more.articles, NewsApiMapping.Url(r).value);
      }
    case Guardian =>
      if GuardianMapping.Url(r).Ok? && Tables.UrlTaken(db.articles, GuardianMapping.Url(r).value) {
        Tables.UrlTakenPersists(db.articles, more.articles, GuardianMapping.Url(r).value);
      }
    case NYTimes =>
      if NYTimesMapping.Url(r).Ok? && Tables.UrlTaken(db.articles, NYTimesMapping.Url(r).value) {
        Tables.UrlTakenPersists(db.articles, more.articles, NYTimesMapping.Url(r).value);
      }
  }

  lemma SettledStepCreatesNothing(p: Provider, lib: Library, db: Db, r: Json)
    requires Settled(p, lib, db, r)
    ensures var s := Step(p, lib, db, r);
      !s.outcome.Saved? && s.db.articles == db.articles && s.db.attachments == db.attachments
  {
    match p
    case NewsApi => NewsApiMapping.SettledStepCreatesNothing(lib, db, r);
    case Guardian => GuardianMapping.SettledStepCreatesNothing(lib, db, r);
    case NYTimes => NYTimesMapping.SettledStepCreatesNothing(lib, db, r);
  }

  /** After a batch, every one of its records is settled. */
  lemma {:induction false} BatchSettles(p: Provider, lib: Library, db: Db, records: seq<Json>)
    requires forall i :: 0 <= i < |records| ==> RerunSafe(p, records[i])
    ensures forall i :: 0 <= i < |records| ==> Settled(p, lib, Batch(p, lib, db, records).db, records[i])
    decreases |records|
  {
    if records != [] {
      var init := records[..|records| - 1];
      var last := records[|records| - 1];
      var before := Batch(p, lib, db, init);
      BatchSettles(p, lib, db, init);
      var after := Batch(p, lib, db, records).db;
      StepSettles(p, lib, before.db, last);
      forall i | 0 <= i < |records|
        ensures Settled(p, lib, after, records[i])
      {
        if i < |records| - 1 {
          assert records[i] == init[i];
          SettledPersists(p, lib, before.db, after, records[i]);
        }
      }
    }
  }

  /** A batch of settled records saves nothing and writes no article or pivot row. */
  lemma {:induction false} SettledBatchSavesNothing(p: Provider, lib: Library, db: Db, records: seq<Json>)
    requires forall i :: 0 <= i < |records| ==> Settled(p, lib, db, records[i])
    ensures var r := Batch(p, lib, db, records);
      r.saved == [] && r.db.articles == db.articles && r.db.attachments == db.attachments
    decreases |records|
  {
    if records != [] {
      var init := records[..|records| - 1];
      var before := Batch(p, lib, db, init);
      SettledBatchSavesNothing(p, lib, db, init);
      var last := records[|records| - 1];
      SettledPersists(p, lib, db, before.db, last);
      SettledStepCreatesNothing(p, lib, before.db, last);
    }
  }

  /** Fetching the same records again creates no duplicate: the second run returns no
      article and adds no article or pivot row (sources, categories and authors it may
      still look up are found, not created, unless an earlier failure left them out). */
  lemma RerunSavesNothing(p: Provider, lib: Library, lib2: Library, db: Db, records: seq<Json>)
    requires forall i :: 0 <= i < |records| ==> RerunSafe(p, records[i])
    requires lib2 == lib.(now := lib2.now)
    ensures var first := Batch(p, lib, db, records); var second := Batch(p, lib2, first.db, records);
      second.saved == [] && second.db.articles == first.db.articles && second.db.attachments == first.db.attachments
  {
    var first := Batch(p, lib, db, records);
    BatchSettles(p, lib, db, records);
    forall i | 0 <= i < |records|
      ensures Settled(p, lib2, first.db, records[i])
    {
      SettledClockFree(p, lib, lib2, first.db, records[i]);
    }
    SettledBatchSavesNothing(p, lib2, first.db, records);
  }

  /** Whether a record is settled does not depend on the clock. */
  lemma SettledClockFree(p: Provider, lib: Library, lib2: Library, db: Db, r: Json)
    requires lib2 == lib.(now := lib2.now) && Settled(p, lib, db, r)
    ensures Settled(p, lib2, db, r)
  {
  }
}
