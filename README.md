# News aggregator core, modelled in Dafny

The system is a Laravel news API. It pulls articles from three providers (NewsAPI, The
Guardian, The New York Times) into a relational store. It serves them back as a filtered,
sorted and paginated listing, a single article, and a feed shaped by each user's source,
category and author preferences. This project models the core of that system and proves
properties of the model:

- **Ingestion.** The three `processArticles` loops, which turn provider records into
  `sources`, `categories`, `authors`, `articles` and `article_author` rows.
- **The `news:fetch` command.** It chooses which providers run.
- **The `Article` query scopes.**
- **The article controller.** The `index` listing, `show`, and the personalised feed.
- **The preference controller.** It replaces one preference type at a time.

Modules:

- `Php`: the PHP semantics the code relies on. This covers `empty()`, truthiness, `??`,
  reading a missing key (which raises under Laravel's error handler), `foreach` over a
  non-array (which raises), string conversion, parameter binding, `trim` and `strtolower`.
- `Schema`: the rows and the store value `Db`. `Valid` holds dense auto-increment ids,
  foreign keys and the unique preference triple.
- `Tables`: the Eloquent calls as functions on `Db`.
- `Database`: the store as a class with one sequence field per table. Each method is proved
  to do what its `Tables` function says.
- `Fields`: what the three loops compute alike.
- `NewsApiMapping`, `GuardianMapping`, `NYTimesMapping`: one loop iteration each, as a
  function.
- `Ingestion`: the loop as a fold, with store-level properties.
- `NewsApiService`, `GuardianService`, `NYTimesService`: the loops as imperative methods over
  the store, proved equal to the fold.
- `ArticleScopes`: the five scopes on a symbolic query.
- `ArticleController`: `index`, `show` and `personalizedFeed`.
- `Preferences`: the preference controller.
- `FetchNews`: the console command.

Library calls are fields of a `Library` value: `Str::slug`, `md5`, `Carbon::parse` and
`now()`. Provider responses are parameters. The database's date parsing and its keys for
other sort columns are fields of an `Engine` value.

## Model

| member | source | states |
|---|---|---|
| Tables.FirstOrCreateSource | app/Services/NewsAPI/NewsAPIService.php:70-73 | finds the first source with that (name, provider) and leaves the store as it is, or appends one with the next id, the given url and the bound `api_id`; it fails only when it must insert and `api_id` is not a scalar; only `sources` changes and `Valid` is kept |
| Tables.FirstOrCreateCategory | app/Services/Guardian/GuardianService.php:78-82 | finds the first category with the slug, or appends one with the next id, that slug and the given name; only `categories` changes |
| Tables.FirstOrCreateAuthor | app/Services/NewsAPI/NewsAPIService.php:100 | finds the first author with exactly that name, or appends one with the next id; only `authors` changes |
| Tables.FindByUrl | app/Services/NewsAPI/NewsAPIService.php:82 | finds a row exactly when some article has that URL, and the row found has it |
| Tables.UrlTakenPersists | app/Services/NewsAPI/NewsAPIService.php:82-84 | a URL present in the table stays present as rows are appended |
| Tables.CreateArticle | app/Services/NewsAPI/NewsAPIService.php:86-96 | appends the row under id = row count + 1 and changes nothing else; keeps `Valid` when the row's source and category exist |
| Tables.Attach | app/Services/NewsAPI/NewsAPIService.php:101 | adds exactly one pivot row (article, author) |
| Tables.AttachAuthorNamed | app/Services/Guardian/GuardianService.php:105-106 | adds one pivot row to the author found or created by name; only `authors` and `article_author` change |
| Tables.FreshKeepsIdsDense | app/Services/NewsAPI/NewsAPIService.php:86-96 | adding at most one article under the next id keeps ids dense |
| Tables.FreshKeepsUrlsUnique | app/Services/NewsAPI/NewsAPIService.php:82-96 | adding at most one article whose URL was not taken keeps URLs pairwise distinct |
| Tables.DeleteOfType | app/Http/Controllers/Api/UserPreferenceController.php:109-111 | exactly the rows not of (user, type) remain, and uniqueness of triples is kept |
| Tables.InsertPreference | database/migrations/2025_03_01_075111_create_user_preferences_table.php:24 | the insert fails exactly when the triple is already present; otherwise it appends the row |
| Database.Store.FirstOrCreateSource | app/Services/NewsAPI/NewsAPIService.php:70-73 | leaves the store and returns the id that `Tables.FirstOrCreateSource` gives |
| Database.Store.FirstOrCreateCategory | app/Services/NewsAPI/NewsAPIService.php:76-79 | as `Tables.FirstOrCreateCategory` |
| Database.Store.FirstOrCreateAuthor | app/Services/NewsAPI/NewsAPIService.php:100 | as `Tables.FirstOrCreateAuthor` |
| Database.Store.HasUrl | app/Services/NewsAPI/NewsAPIService.php:82 | true exactly when some article has the URL |
| Database.Store.CreateArticle | app/Services/NewsAPI/NewsAPIService.php:86-96 | as `Tables.CreateArticle`, returning the new id |
| Database.Store.Attach | app/Services/NewsAPI/NewsAPIService.php:101 | as `Tables.Attach` |
| Database.Store.DeletePreferences | app/Http/Controllers/Api/UserPreferenceController.php:109-111 | as `Tables.DeleteOfType`, on `user_preferences` only |
| Database.Store.InsertPreference | app/Http/Controllers/Api/UserPreferenceController.php:115-119 | as `Tables.InsertPreference`; false when the unique index rejects the row |
| Fields.PublishedAt | app/Services/NewsAPI/NewsAPIService.php:95 | a falsy stamp gives `now()`; a truthy string gives its parse; an array raises |
| Fields.AttachNamedInOrder | app/Services/Guardian/GuardianService.php:105-106 | attaching one more author by name extends the ordered list of attached names by that name |
| NewsApiMapping.Attributes | app/Services/NewsAPI/NewsAPIService.php:86-96 | the new row has the record's `title`, `description` and `content`, the URL, `md5` of it as external id, `urlToImage ?? null` as image and the published stamp; a missing `description`, `content` or `publishedAt` raises |
| NewsApiMapping.AfterCategory | app/Services/NewsAPI/NewsAPIService.php:82-105 | after the lookups, sources and categories stay fixed; at most one article is added, with the next id and a URL not yet taken; a saved article carries the resolved source and category ids |
| NewsApiMapping.Step | app/Services/NewsAPI/NewsAPIService.php:61-110 | skipped exactly when `title` or `url` is empty, and then nothing changes; otherwise rows are only appended, at most one article with the next id and a new URL; a saved article is that appended row |
| NewsApiMapping.StepKeepsValid | app/Services/NewsAPI/NewsAPIService.php:61-110 | an iteration keeps dense ids and existing foreign keys, including on the paths that raise |
| NewsApiMapping.SourceResolution | app/Services/NewsAPI/NewsAPIService.php:69-73 | the source is found by (`source.name ?? 'Unknown'`, "newsapi"), or created with `source.id ?? null`; a non-scalar id raises before anything is written |
| NewsApiMapping.GeneralCategory | app/Services/NewsAPI/NewsAPIService.php:76-79 | every record that gets that far resolves the single category with slug "general", created as "General" |
| NewsApiMapping.KnownUrlCreatesNothing | app/Services/NewsAPI/NewsAPIService.php:82-84 | a record whose URL is already stored saves nothing and adds no article or pivot row |
| NewsApiMapping.SavedArticleColumns | app/Services/NewsAPI/NewsAPIService.php:86-96 | a saved article is the new last row with the next id, a URL not taken before, md5 external id, and title, description, content, image and published stamp from the record |
| NewsApiMapping.SavedArticleKeys | app/Services/NewsAPI/NewsAPIService.php:92-93 | a saved article points at the source named by the record under "newsapi" and at the "general" category |
| NewsApiMapping.SingleAuthor | app/Services/NewsAPI/NewsAPIService.php:99-102 | an empty `author` attaches nobody; otherwise exactly one pivot row to the author whose name is the whole `author` string |
| NewsApiMapping.StepSettles | app/Services/NewsAPI/NewsAPIService.php:61-110 | after one pass over a record whose `source.id` binds, the record can no longer create an article |
| NewsApiMapping.SettledStepCreatesNothing | app/Services/NewsAPI/NewsAPIService.php:82-105 | a settled record saves nothing and writes no article or pivot row |
| NewsApiService.ProcessRecord | app/Services/NewsAPI/NewsAPIService.php:62-109 | the store and the outcome are those of `NewsApiMapping.Step` |
| NewsApiService.ProcessArticles | app/Services/NewsAPI/NewsAPIService.php:57-113 | the store and the returned list are those of `Ingestion.Batch` for NewsAPI |
| GuardianMapping.Attributes | app/Services/Guardian/GuardianService.php:89-99 | the row takes `webTitle`, `webUrl`, `fields.trailText/body/thumbnail ?? null`, `id` and the stamp `webPublicationDate ? parse : now()`; a missing `id` or `webPublicationDate` raises |
| GuardianMapping.TagStep | app/Services/Guardian/GuardianService.php:104-107 | one tag changes only `authors` and `article_author` |
| GuardianMapping.Contributors | app/Services/Guardian/GuardianService.php:103-108 | the tag loop changes only `authors` and `article_author`, and keeps `Valid` |
| GuardianMapping.AttachTags | app/Services/Guardian/GuardianService.php:102-109 | the outcome is the saved article or a raise; only authors and pivot rows change |
| GuardianMapping.Save | app/Services/Guardian/GuardianService.php:89-111 | the article is appended under the next id whatever the tags do; sources and categories are unchanged |
| GuardianMapping.AfterCategory | app/Services/Guardian/GuardianService.php:85-112 | after the lookups, at most one article with the next id and a new URL, carrying the resolved keys |
| GuardianMapping.GuardianSource | app/Services/Guardian/GuardianService.php:71-74 | the fixed "The Guardian" `firstOrCreate` never raises |
| GuardianMapping.Step | app/Services/Guardian/GuardianService.php:63-117 | skipped exactly when `webTitle` or `webUrl` is empty, with no change; otherwise rows are only appended, at most one article with the next id and a new URL |
| GuardianMapping.StepKeepsValid | app/Services/Guardian/GuardianService.php:63-117 | an iteration keeps the store invariant |
| GuardianMapping.SingletonSource | app/Services/Guardian/GuardianService.php:71-74 | every record past the skip leaves exactly one "The Guardian"/"guardian" source found, created once with the Guardian URL |
| GuardianMapping.CategoryBySlug | app/Services/Guardian/GuardianService.php:77-82 | the category is found by `Str::slug(sectionName ?? 'General')` or created with that name |
| GuardianMapping.SavedArticleColumns | app/Services/Guardian/GuardianService.php:89-99 | a saved article is the new last row with the next id, a URL not taken before, and `webTitle`, `trailText`, `body`, `thumbnail`, `id` and the published stamp from the record |
| GuardianMapping.SavedArticleKeys | app/Services/Guardian/GuardianService.php:95-96 | a saved article points at the "The Guardian"/"guardian" source and at the category whose slug is that of `sectionName ?? 'General'` |
| GuardianMapping.KnownUrlCreatesNothing | app/Services/Guardian/GuardianService.php:85-87 | a stored `webUrl` saves nothing and adds no article or pivot row |
| GuardianMapping.TagStepAttaches | app/Services/Guardian/GuardianService.php:104-107 | a contributor tag adds its `webTitle` to the attached names; any other tag adds nothing |
| GuardianMapping.ContributorsAttachNames | app/Services/Guardian/GuardianService.php:103-108 | a completed tag loop attaches exactly the contributor names, one pivot row each, in tag order |
| GuardianMapping.SaveAttachesContributors | app/Services/Guardian/GuardianService.php:102-109 | empty `tags` attach nobody; otherwise the new article gets the contributor names in order |
| GuardianMapping.SavedStepIsSave | app/Services/Guardian/GuardianService.php:85-112 | a saved iteration is `Save` on the store after the lookups, which has the same articles and pivot rows |
| GuardianMapping.SavedArticleAuthors | app/Services/Guardian/GuardianService.php:102-109 | a saved article gets exactly its contributor tags' names, in order |
| GuardianMapping.ContributorsStopsAtRaise | app/Services/Guardian/GuardianService.php:103-108 | once a tag raises, later tags are not processed |
| GuardianMapping.StepSettles | app/Services/Guardian/GuardianService.php:63-117 | after one pass the record can no longer create an article |
| GuardianMapping.SettledStepCreatesNothing | app/Services/Guardian/GuardianService.php:85-112 | a settled record saves nothing and writes no article or pivot row |
| GuardianService.AttachTag | app/Services/Guardian/GuardianService.php:104-107 | one tag against the store leaves the state, and reports the raise, of `GuardianMapping.TagStep` |
| GuardianService.AttachContributors | app/Services/Guardian/GuardianService.php:103-108 | the store after the loop, and whether it completed, are those of `GuardianMapping.Contributors` |
| GuardianService.ProcessRecord | app/Services/Guardian/GuardianService.php:64-116 | the store and the outcome are those of `GuardianMapping.Step` |
| GuardianService.ProcessArticles | app/Services/Guardian/GuardianService.php:59-120 | the store and the returned list are those of `Ingestion.Batch` for the Guardian |
| NYTimesMapping.FirstImage | app/Services/NYTimes/NYTimesService.php:89-96 | no image exactly when no media entry has `url` set; otherwise the image comes from the first entry that has it |
| NYTimesMapping.ImageFrom | app/Services/NYTimes/NYTimesService.php:92 | the image is the NYT host prefixed to the entry's `url`; an array `url` raises |
| NYTimesMapping.Attributes | app/Services/NYTimes/NYTimesService.php:99-109 | the row takes `headline.main`, `abstract ?? null`, no content, the image, and `md5(web_url)`; a missing `pub_date` raises |
| NYTimesMapping.PersonName | app/Services/NYTimes/NYTimesService.php:114 | the name is `trim(firstname ?? '' . ' ' . lastname ?? '')`; it raises exactly when a part is an array |
| NYTimesMapping.PersonStep | app/Services/NYTimes/NYTimesService.php:114-118 | one person changes only `authors` and `article_author` |
| NYTimesMapping.Bylines | app/Services/NYTimes/NYTimesService.php:113-119 | the person loop changes only authors and pivot rows, and keeps `Valid` |
| NYTimesMapping.AttachBylines | app/Services/NYTimes/NYTimesService.php:112-120 | the outcome is the saved article or a raise; only authors and pivot rows change |
| NYTimesMapping.Save | app/Services/NYTimes/NYTimesService.php:99-122 | the article is appended under the next id whatever the bylines do |
| NYTimesMapping.AfterCategory | app/Services/NYTimes/NYTimesService.php:84-123 | after the lookups, at most one article with the next id and a new URL, carrying the resolved keys |
| NYTimesMapping.TimesSource | app/Services/NYTimes/NYTimesService.php:70-73 | the fixed "The New York Times" `firstOrCreate` never raises |
| NYTimesMapping.Step | app/Services/NYTimes/NYTimesService.php:62-128 | skipped exactly when `headline.main` or `web_url` is empty, with no change; otherwise rows are only appended, at most one article with the next id and a new URL |
| NYTimesMapping.StepKeepsValid | app/Services/NYTimes/NYTimesService.php:62-128 | an iteration keeps the store invariant |
| NYTimesMapping.SingletonSource | app/Services/NYTimes/NYTimesService.php:70-73 | every record past the skip leaves the one "The New York Times"/"nytimes" source found, created once |
| NYTimesMapping.CategoryBySlug | app/Services/NYTimes/NYTimesService.php:76-81 | the category is found by `Str::slug(section_name ?? 'General')` or created with that name |
| NYTimesMapping.KnownUrlCreatesNothing | app/Services/NYTimes/NYTimesService.php:84-86 | a stored `web_url` saves nothing and adds no article or pivot row |
| NYTimesMapping.ImageFailureCreatesNoArticle | app/Services/NYTimes/NYTimesService.php:88-99 | a raise while looking for the image comes before `Article::create`, so no article is written |
| NYTimesMapping.SavedStepIsSave | app/Services/NYTimes/NYTimesService.php:84-123 | a saved iteration is `Save` of the record's attributes, the URL and the image, on the store after the lookups |
| NYTimesMapping.SavedArticleColumns | app/Services/NYTimes/NYTimesService.php:99-109 | a saved article is the new last row with the record's headline, URL, abstract, no content, the image, the md5 id and the published stamp |
| NYTimesMapping.SavedArticleKeys | app/Services/NYTimes/NYTimesService.php:105-106 | a saved article points at the NYT source and at the slugged section category |
| NYTimesMapping.BylineNamesNonEmpty | app/Services/NYTimes/NYTimesService.php:115 | every attached name is one that `empty()` accepts: not "" and not "0" |
| NYTimesMapping.BylinesAttachNames | app/Services/NYTimes/NYTimesService.php:113-119 | a completed person loop attaches one author per non-empty trimmed name, in order |
| NYTimesMapping.SaveAttachesBylines | app/Services/NYTimes/NYTimesService.php:112-120 | an empty `byline.person` attaches nobody; otherwise the new article gets the byline names in order |
| NYTimesMapping.SavedArticleAuthors | app/Services/NYTimes/NYTimesService.php:112-120 | a saved article gets exactly its byline names, in order |
| NYTimesMapping.BylinesStopsAtRaise | app/Services/NYTimes/NYTimesService.php:113-119 | once a person raises, later persons are not processed |
| NYTimesMapping.StepSettles | app/Services/NYTimes/NYTimesService.php:62-128 | after one pass the record can no longer create an article |
| NYTimesMapping.SettledStepCreatesNothing | app/Services/NYTimes/NYTimesService.php:84-123 | a settled record saves nothing and writes no article or pivot row |
| NYTimesService.FindImage | app/Services/NYTimes/NYTimesService.php:89-96 | the loop with its `break` returns `NYTimesMapping.FirstImage` |
| NYTimesService.AttachPerson | app/Services/NYTimes/NYTimesService.php:114-118 | one person against the store leaves the state, and reports the raise, of `NYTimesMapping.PersonStep` |
| NYTimesService.AttachPersons | app/Services/NYTimes/NYTimesService.php:113-119 | the store after the loop, and whether it completed, are those of `NYTimesMapping.Bylines` |
| NYTimesService.ProcessRecord | app/Services/NYTimes/NYTimesService.php:63-127 | the store and the outcome are those of `NYTimesMapping.Step` |
| NYTimesService.ProcessArticles | app/Services/NYTimes/NYTimesService.php:58-131 | the store and the returned list are those of `Ingestion.Batch` for the NYT |
| Ingestion.Step | app/Services/NewsAPI/NewsAPIService.php:62-109 | for every provider, an iteration only appends rows, at most one article with the next id and a new URL, and a saved article is that row |
| Ingestion.StepKeepsValid | app/Services/Guardian/GuardianService.php:63-117 | every provider's iteration keeps the store invariant |
| Ingestion.Batch | app/Services/NewsAPI/NewsAPIService.php:57-113 | the loop only appends rows and returns at most one article per record |
| Ingestion.StepSavesNewRow | app/Services/NYTimes/NYTimesService.php:122 | one more iteration keeps the returned list made of this run's new rows, in increasing id order |
| Ingestion.BatchSavesNewRows | app/Services/NYTimes/NYTimesService.php:58-131 | the returned articles are rows this run created, stored under their ids, in increasing id order |
| Ingestion.BatchAppend | app/Services/Guardian/GuardianService.php:63-117 | processing `xs` then `ys` is processing `xs + ys`, with the returned lists concatenated |
| Ingestion.BatchKeepsValid | app/Services/NewsAPI/NewsAPIService.php:61-110 | a whole loop keeps the store invariant |
| Ingestion.BatchKeepsUrlsUnique | app/Services/NewsAPI/NewsAPIService.php:82-105 | no two articles share a URL after a batch if none did before, even when the batch repeats a URL |
| Ingestion.StepSettles | app/Services/NewsAPI/NewsAPIService.php:61-110 | after one pass a rerun-safe record can no longer create an article |
| Ingestion.SettledPersists | app/Services/NewsAPI/NewsAPIService.php:82-84 | a settled record stays settled as the store grows |
| Ingestion.SettledStepCreatesNothing | app/Services/Guardian/GuardianService.php:85-87 | a settled record writes no article or pivot row |
| Ingestion.BatchSettles | app/Services/NYTimes/NYTimesService.php:62-128 | after a batch, every one of its rerun-safe records is settled |
| Ingestion.SettledBatchSavesNothing | app/Services/NYTimes/NYTimesService.php:84-86 | a batch of settled records returns nothing and adds no article or pivot row |
| Ingestion.RerunSavesNothing | app/Services/NewsAPI/NewsAPIService.php:82-84 | fetching the same records again, at any clock time, returns nothing and adds no article or pivot row |
| Ingestion.SettledClockFree | app/Services/NewsAPI/NewsAPIService.php:95 | whether a record is settled does not depend on `now()` |
| ArticleScopes.MatchesAppend | app/Models/Article.php:55-64 | one more condition matches exactly the rows that match the old query and the condition |
| ArticleScopes.Search | app/Models/Article.php:55-64 | a falsy keyword leaves the query; otherwise a row matches when it matched before and the keyword is in its title, description or content |
| ArticleScopes.ByDate | app/Models/Article.php:69-76 | a falsy date leaves the query; otherwise a row also needs to be published on that day |
| ArticleScopes.ByCategory | app/Models/Article.php:81-88 | a falsy id leaves the query; otherwise a row also needs that category id, and no category never matches |
| ArticleScopes.BySource | app/Models/Article.php:93-100 | a falsy id leaves the query; otherwise a row also needs that source id |
| ArticleScopes.ByAuthor | app/Models/Article.php:105-114 | a falsy id leaves the query; otherwise a row also needs a pivot row to an author with that id |
| ArticleScopes.Select | app/Http/Controllers/Api/ArticleController.php:165-171 | exactly the given rows that match the query, no more of them than there were |
| ArticleScopes.Rows | app/Http/Controllers/Api/ArticleController.php:165-171 | exactly the stored articles that match the query |
| ArticleScopes.SelectSameMatches | app/Models/Article.php:55-114 | two queries that accept the same rows select the same list |
| ArticleScopes.ScopesNarrow | app/Models/Article.php:55-114 | each scope only removes rows |
| ArticleScopes.ScopesIdempotent | app/Models/Article.php:55-114 | applying a scope twice with the same value selects what applying it once does |
| ArticleScopes.ScopesCommute | app/Http/Controllers/Api/ArticleController.php:325-326 | the order of `search` and `byDate` does not matter |
| ArticleController.Descending | app/Http/Controllers/Api/ArticleController.php:171 | no direction means descending; "asc" and "desc" are accepted in any case; anything else raises |
| ArticleController.Insert | app/Http/Controllers/Api/ArticleController.php:171 | inserting into a sorted list keeps it sorted and adds exactly that row |
| ArticleController.Sort | app/Http/Controllers/Api/ArticleController.php:171 | `orderBy` yields the rows sorted by the column, NULL first in ascending order, and is a permutation of its input |
| ArticleController.PageSize | app/Http/Controllers/Api/ArticleController.php:173-174 | a missing or zero `per_page` gives 15; otherwise the value itself, never 0 |
| ArticleController.CurrentPage | app/Http/Controllers/Api/ArticleController.php:174 | the page is the requested one when it is at least 1, and 1 otherwise |
| ArticleController.LastPage | app/Http/Controllers/Api/ArticleController.php:174 | the fewest pages of that size that hold all rows, at least 1; 1 for a negative size |
| ArticleController.Offset | app/Http/Controllers/Api/ArticleController.php:174 | a page starts on a page boundary with exactly `page - 1` full pages before it |
| ArticleController.Window | app/Http/Controllers/Api/ArticleController.php:174 | `offset`/`limit`: at most `size` consecutive rows from the offset, exactly `size` when there are enough |
| ArticleController.Paginate | app/Http/Controllers/Api/ArticleController.php:173-174 | the meta block (total, per page, current, last) and items that are the consecutive slice at the offset, at most `per_page` of them; a negative size puts all rows on one page |
| ArticleController.PageDrawnFrom | app/Http/Controllers/Api/ArticleController.php:174 | a page holds only rows of the sorted list |
| ArticleController.PageKeepsOrder | app/Http/Controllers/Api/ArticleController.php:171-174 | a page of a sorted list is sorted |
| ArticleController.PositionBelowPages | app/Http/Controllers/Api/ArticleController.php:174 | a position below `n` full pages falls on one of the first `n` pages |
| ArticleController.RowOnItsPage | app/Http/Controllers/Api/ArticleController.php:174 | every row is on page `k / size + 1` at place `k % size`, and that page is at most the last page, so the pages cover the list |
| ArticleController.FivePerTwo | app/Http/Controllers/Api/ArticleController.php:165-176 | an `index` over five matching rows at `per_page=2`, on a request as the middleware leaves it, reports total 5 and three pages; the first page holds two rows and the third only the fifth sorted row |
| ArticleController.FiveRowsTwoPerPage | app/Http/Controllers/Api/ArticleController.php:173-174 | five rows at two per page make three pages, two rows on the first and only the fifth on the third |
| ArticleController.SortKeepsRows | app/Http/Controllers/Api/ArticleController.php:171 | sorting keeps the count and the members |
| ArticleController.Listing | app/Http/Controllers/Api/ArticleController.php:171-176 | fails exactly for a refused direction; otherwise the response is the requested page of the matching rows sorted by the column: `total` counts every matching row, `last_page` is the page count, and the page holds only matching stored rows, sorted, at most `per_page` of them |
| ArticleController.IndexFilters | app/Http/Controllers/Api/ArticleController.php:165-170 | a row is listed exactly when it passes each of the five filters whose parameter is truthy |
| ArticleController.IndexQuery | app/Http/Controllers/Api/ArticleController.php:165-170 | the five scopes in source order; with no truthy filter parameter there is no condition, so every article is listed |
| ArticleController.Cleaned | app/Http/Controllers/Api/ArticleController.php:165-171 | a parameter as the `TrimStrings` and `ConvertEmptyStringsToNull` middleware leave it: trimmed, and absent when nothing is left |
| ArticleController.Received | app/Http/Controllers/Api/ArticleController.php:160-171 | the request `index` and `personalizedFeed` read: every text parameter cleaned, `per_page` and `page` unchanged |
| ArticleController.CleanedStable | app/Http/Controllers/Api/ArticleController.php:165-171 | cleaning a parameter already clean changes nothing |
| ArticleController.ReceivedStable | app/Http/Controllers/Api/ArticleController.php:160-171 | the middleware is idempotent: a request it already cleaned passes unchanged |
| ArticleController.Index | app/Http/Controllers/Api/ArticleController.php:160-178 | `index` is `Listing` over `IndexQuery` of the cleaned request; it fails exactly when the trimmed `sort_direction` is non-empty and neither "asc" nor "desc" in any case |
| ArticleController.IndexDirection | app/Http/Controllers/Api/ArticleController.php:171 | an empty or blank `sort_direction` sorts descending, as if it were absent |
| ArticleController.BlankParametersAbsent | app/Http/Controllers/Api/ArticleController.php:165-171 | a blank `sort_by` sorts by `published_at`, and a blank `keyword` filters nothing |
| ArticleController.Show | app/Http/Controllers/Api/ArticleController.php:208 | finds a row exactly when a row with that id exists, and then returns it |
| ArticleController.ShowDense | app/Http/Controllers/Api/ArticleController.php:208 | on a valid store, `show` finds exactly the ids from 1 to the article count |
| ArticleController.PreferredIds | app/Models/User.php:49-71 | an id is preferred exactly when the user has a row (user, type, id) and the target table has a row with that id |
| ArticleController.MatchesOne | app/Http/Controllers/Api/ArticleController.php:305-317 | a one-condition query matches exactly the rows that satisfy the condition |
| ArticleController.MatchesConcat | app/Http/Controllers/Api/ArticleController.php:305-327 | conditions combine by AND |
| ArticleController.Filters | app/Http/Controllers/Api/ArticleController.php:305-322 | one condition per non-empty preference set, so at most three, and none exactly when all three sets are empty |
| ArticleController.FeedFilters | app/Http/Controllers/Api/ArticleController.php:294-322 | the preference conditions are empty exactly when the user prefers no source, category or author |
| ArticleController.FeedQuery | app/Http/Controllers/Api/ArticleController.php:305-327 | the preference conditions, then keyword and date; with no preferences it is the `index` query without the three id filters |
| ArticleController.Feed | app/Http/Controllers/Api/ArticleController.php:287-334 | `personalizedFeed` is `Listing` over `FeedQuery` of the cleaned request; it fails exactly when the trimmed `sort_direction` is non-empty and neither "asc" nor "desc" in any case |
| ArticleController.FiltersMeaning | app/Http/Controllers/Api/ArticleController.php:305-317 | the three `whereIn`/`whereHas` filters pass a row exactly when it is in every non-empty id set |
| ArticleController.FeedFiltersMeaning | app/Http/Controllers/Api/ArticleController.php:305-327 | a feed row passes the inclusion filter of each non-empty preference set, and the keyword and date filters |
| ArticleController.FeedWithoutPreferences | app/Http/Controllers/Api/ArticleController.php:320-330 | with no preferences the feed is the plain listing narrowed only by keyword and date |
| ArticleController.FeedIgnoresFilterParams | app/Http/Controllers/Api/ArticleController.php:325-327 | the feed does not read `category_id`, `source_id` or `author_id` |
| Preferences.TargetRows | app/Models/User.php:49-71 | the rows of the table a preference type points at, in table order |
| Preferences.WithIds | app/Http/Controllers/Api/UserPreferenceController.php:124 | `whereIn('id', ids)`: exactly the rows whose id is in the set |
| Preferences.Joined | app/Models/User.php:49-71 | the join yields exactly the target rows for which the user has a preference of that type |
| Preferences.Index | app/Http/Controllers/Api/UserPreferenceController.php:45-54 | `index` answers three lists, each drawn from the table its type points at |
| Preferences.IndexOwnType | app/Http/Controllers/Api/UserPreferenceController.php:45-54 | each `index` list holds exactly the rows of its own table that a preference of its own type points at |
| Preferences.FeedReadsIndexLists | app/Http/Controllers/Api/ArticleController.php:294-300 | the feed's id sets are the ids of the rows `index` lists |
| Preferences.Ids | app/Http/Controllers/Api/UserPreferenceController.php:114 | the validated elements as ids, in request order |
| Preferences.Required | app/Http/Controllers/Api/UserPreferenceController.php:98 | `required` refuses a missing field, null, a blank string and an empty list or object |
| Preferences.IsArray | app/Http/Controllers/Api/UserPreferenceController.php:98 | `array` accepts exactly the values `foreach` can iterate |
| Preferences.IdExists | app/Http/Controllers/Api/UserPreferenceController.php:99 | `exists:<table>,id` holds of a non-negative integer only when `whereIn` on that id finds a target row |
| Preferences.Accepts | app/Http/Controllers/Api/UserPreferenceController.php:97-100 | a request that passes validation holds a non-empty list of elements |
| Preferences.EmptyListRejected | app/Http/Controllers/Api/UserPreferenceController.php:98 | an empty list, an empty object or a missing field fails `required` |
| Preferences.Triples | app/Http/Controllers/Api/UserPreferenceController.php:115-119 | one (user, type, id) row per requested id, in order |
| Preferences.InsertAll | app/Http/Controllers/Api/UserPreferenceController.php:114-120 | the insert loop changes only `user_preferences` and keeps `Valid` |
| Preferences.InsertAllPrefix | app/Http/Controllers/Api/UserPreferenceController.php:114-120 | the insert loop appends the triples of a prefix of the ids, all of them exactly when it completes |
| Preferences.InsertEach | app/Http/Controllers/Api/UserPreferenceController.php:114-120 | the `create` loop against the store leaves the state, and reports completion, of `Preferences.InsertAll` |
| Preferences.InsertAllCompletes | database/migrations/2025_03_01_075111_create_user_preferences_table.php:24 | after the delete, the insert loop completes exactly when the ids are pairwise distinct, and then it appends all their triples |
| Preferences.InsertAllStopsAtFailure | app/Http/Controllers/Api/UserPreferenceController.php:114-120 | once an insert fails, the remaining ids are not tried |
| Preferences.Set | app/Http/Controllers/Api/UserPreferenceController.php:97-125 | the setter answers 422 with no change exactly when `Accepts` fails, and otherwise does `Apply` |
| Preferences.Apply | app/Http/Controllers/Api/UserPreferenceController.php:109-125 | after validation, the delete and the insert loop change only `user_preferences`, and the answer is never 422 |
| Preferences.SetValidation | app/Http/Controllers/Api/UserPreferenceController.php:97-104 | the answer is 422 exactly when validation fails, and then nothing changes |
| Preferences.SetTouchesOnlyItsType | app/Http/Controllers/Api/UserPreferenceController.php:109-120 | whatever the answer, only this user's rows of this type change, and the other tables stay |
| Preferences.SetReplaces | app/Http/Controllers/Api/UserPreferenceController.php:109-125 | on success the user's preferences of the type are exactly the requested ids, replaced and not merged; the response lists exactly the target rows with those ids |
| Preferences.SetDuplicateFails | app/Http/Controllers/Api/UserPreferenceController.php:109-120 | an accepted list with a repeated id gives a server error, and only requested ids are left of that type because the delete has already run |
| Preferences.SetKeepsValid | app/Http/Controllers/Api/UserPreferenceController.php:109-120 | a setter keeps the store invariant whatever it answers |
| Preferences.SetPreferences | app/Http/Controllers/Api/UserPreferenceController.php:97-125 | the delete and the insert loop against the store leave the state, and give the answer, of `Preferences.Set` |
| Preferences.SetSources | app/Http/Controllers/Api/UserPreferenceController.php:95-126 | as `Preferences.Set` for sources |
| Preferences.SetCategories | app/Http/Controllers/Api/UserPreferenceController.php:167-198 | as `Preferences.Set` for categories |
| Preferences.SetAuthors | app/Http/Controllers/Api/UserPreferenceController.php:239-270 | as `Preferences.Set` for authors |
| FetchNews.NamesDiffer | app/Console/Commands/FetchNewsCommand.php:38-50 | the three provider names are pairwise different |
| FetchNews.Selected | app/Console/Commands/FetchNewsCommand.php:38-54 | a provider is selected exactly when there is no argument or the argument is its name; the order is that of the blocks; an argument selects at most one |
| FetchNews.FetchArticles | app/Services/NewsAPI/NewsAPIService.php:29-49 | a failed request, or a list that is not an array, gives `[]` with no writes; a delivered list gives `Ingestion.Batch`; only an escaping exception gives nothing |
| FetchNews.Block | app/Console/Commands/FetchNewsCommand.php:38-42 | a skipped block changes nothing; a block that runs fails exactly when its provider lets an exception escape; lines are only appended |
| FetchNews.Handle | app/Console/Commands/FetchNewsCommand.php:30-63 | the command only appends rows |
| FetchNews.Started | app/Console/Commands/FetchNewsCommand.php:39 | no more providers started than lines written |
| FetchNews.StartedAppend | app/Console/Commands/FetchNewsCommand.php:39-53 | the providers started by two runs of lines are those of each, concatenated |
| FetchNews.BlockStarts | app/Console/Commands/FetchNewsCommand.php:38-42 | a block that runs starts its provider and no other |
| FetchNews.BlocksRunSelected | app/Console/Commands/FetchNewsCommand.php:38-54 | when no selected provider lets an exception escape, the three blocks start exactly the selected providers, in order, and none fails |
| FetchNews.HandleRunsSelected | app/Console/Commands/FetchNewsCommand.php:38-57 | with no escaping exception the command runs exactly the selected providers, in block order, and answers SUCCESS |
| FetchNews.HandleExit | app/Console/Commands/FetchNewsCommand.php:37-62 | the answer is FAILURE exactly when a selected provider lets an exception escape, and SUCCESS otherwise |
| FetchNews.UnknownSourceSucceeds | app/Console/Commands/FetchNewsCommand.php:38-57 | an unrecognised argument runs nothing, writes nothing and answers SUCCESS |
| FetchNews.SingleProvider | app/Console/Commands/FetchNewsCommand.php:38-54 | naming one provider runs exactly it; the reported count is the length of the list its loop returned |
| FetchNews.AllProvidersInOrder | app/Console/Commands/FetchNewsCommand.php:38-57 | without an argument NewsAPI, the Guardian and the NYT run in that order, each on the store the previous one left, each count reported |
| FetchNews.RunProvider | app/Services/NewsAPI/NewsAPIService.php:29-49 | running a provider against the store gives `FetchNews.FetchArticles`, through that provider's `ProcessArticles` |
| FetchNews.RunBlock | app/Console/Commands/FetchNewsCommand.php:38-42 | one guarded block against the store gives `FetchNews.Block` |
| FetchNews.HandleCommand | app/Console/Commands/FetchNewsCommand.php:30-63 | the command against the store leaves the state, the lines and the exit code of `FetchNews.Handle` |

## Left out

- The HTTP request, configuration, logging and response unwrapping in each provider's
  `fetchArticles` are network I/O. Their outcome is a parameter: a delivered list, a failure
  (which returns `[]`), or an escaping exception.
- The response cache around `index`, `show` and `personalizedFeed` is not modelled, so a
  cached page can be stale. Authentication is not modelled either: the user is a parameter.
- PHP `Error` and `Exception` are not distinguished. Every failure inside an iteration is
  taken to be the per-record `catch`, including a `TypeError` that the `catch (\Exception)`
  would not stop. The same holds for the command's own `catch (\Exception $e)`
  (app/Console/Commands/FetchNewsCommand.php:58): an `Error` escaping `fetchArticles` is not
  caught there, so PHP writes no "Error fetching news" line, while the model logs `Failed`.
  The exit code is 1 either way.
- An exception escaping a provider is modelled as happening before that provider writes
  anything.
- `Library.now` is one instant per batch, not a fresh clock reading per record.
- Date strings, `Str::slug`, `md5` and `Carbon::parse` are abstract functions. Their
  formats are not modelled.
- Request parameters compared with integer columns match only the canonical decimal
  numeral. SQL's numeric coercion of strings such as "03" or "3abc" is not modelled.
- `LIKE` matching is modelled as a case-sensitive substring test. Collation and the
  `%`/`_` wildcards inside the keyword are not modelled.
- Sorting by a column other than `published_at` uses an abstract integer key. An unknown
  column, which makes the database raise, is not modelled.
- The order of rows with equal sort keys is unspecified in SQL. The model fixes one such
  order and proves only sortedness and permutation about it.
- Laravel's global `TrimStrings` and `ConvertEmptyStringsToNull` middleware are modelled by
  `ArticleController.Received`, with PHP `trim`'s default characters. Recent Laravel
  versions strip a slightly different set there: form feed and zero-width spaces, but not
  NUL. The HTTP kernel that registers the middleware is not part of this model.
- `per_page` and `page` are taken as integers. Non-numeric strings are not modelled.
- Repeated keys in a JSON object keep the last value. Nothing further about duplicate keys is
  modelled.
- Concurrency is not modelled: parallel requests and two fetches at once.
- Ingestion.RerunSavesNothing: holds for NewsAPI only under `NewsApiMapping.RerunSafe`
  (`source.id` absent or scalar). A record whose source insert failed can succeed on a rerun
  once another record has created that source.
- Preferences.IdExists: only JSON integers count as existing ids. A numeric string element,
  which MySQL would coerce and insert, is treated as missing.
- Equality lookups are exact: the URL (`Tables.FindByUrl`), the source, the author and the
  slug. MySQL's default `_ci` collations would also match values differing in case or
  trailing spaces.
- Laravel's `where` binds only the first element of an array value. The model raises on
  every array bound in a lookup: the NewsAPI `source.name` (`NewsApiMapping.Step`), the
  NewsAPI `author` (`NewsApiMapping.AfterCategory`) and the Guardian contributor `webTitle`
  (`GuardianMapping.TagStep`). In PHP, an array whose first element names an existing
  source or author goes on: the source is used, or the author is attached and the article
  is reported as saved. In the model the author cases leave the row stored but not
  reported as saved.
- Query-string parameters are taken as strings. An array value is not modelled: `search`
  and `orderBy` raise on it and `where` binds its first element. So `Listing` failing
  exactly for a refused direction covers string parameters only.
- `title`, `url` and `name` are `varchar(255)` columns, where an over-long value raises under
  strict mode. `Tables.CreateArticle` and the `firstOrCreate` inserts never fail on length.
- `Php.Json` numbers are integers only, so a float id or a numeric timestamp with a fraction
  cannot be represented.
- `created_at` and `updated_at` timestamps are not modelled. Neither are the eager-loaded
  relations (`with([...])`) and the JSON resource shape of responses.
