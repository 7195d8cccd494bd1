/** The relational store as the running code sees it: one mutable table per model, each
    an append-only sequence except `user_preferences`, which the preference setters also
    delete from. Every method is proved to do what its `Tables` counterpart says. */
module Database {
  import opened Php
  import opened Schema
  import Tables

  class Store {
    var sources: seq<Source>
    var categories: seq<Category>
    var authors: seq<Author>
    var articles: seq<Article>
    var attachments: seq<Attachment>
    var preferences: seq<Preference>

    /** The contents of every table. */
    function State(): Db
      reads this
    {
      Db(sources, categories, authors, articles, attachments, preferences)
    }

    predicate Valid()
      reads this
    {
      Schema.Valid(State())
    }

    /** A freshly migrated, empty database. */
    constructor ()
      ensures State() == EmptyDb && Valid()
    {
      sources, categories, authors := [], [], [];
      articles, attachments, preferences := [], [], [];
    }

    method FirstOrCreateSource(name: string, provider: string, url: Option<string>, apiId: Json)
      returns (r: Result<nat>)
      modifies this
      ensures var spec := Tables.FirstOrCreateSource(old(State()), name, provider, url, apiId);
        match spec
        case Ok(found) => r == Ok(found.id) && State() == found.db
        case Thrown => r == Thrown && State() == old(State())
    {
      match Tables.FindSource(sources, name, provider)
      case Some(i) =>
        r := Ok(i + 1);
      case None =>
        match BindNullable(apiId)
        case Thrown =>
          r := Thrown;
        case Ok(apiIdText) =>
          sources := sources + [Source(|sources| + 1, name, apiIdText, url, provider)];
          r := Ok(|sources|);
    }

    method FirstOrCreateCategory(slug: string, name: string) returns (id: nat)
      modifies this
      ensures var spec := Tables.FirstOrCreateCategory(old(State()), slug, name);
        id == spec.id && State() == spec.db
    {
      match Tables.FindCategory(categories, slug)
      case Some(i) =>
        id := i + 1;
      case None =>
        categories := categories + [Category(|categories| + 1, name, slug)];
        id := |categories|;
    }

    method FirstOrCreateAuthor(name: string) returns (id: nat)
      modifies this
      ensures var spec := Tables.FirstOrCreateAuthor(old(State()), name);
        id == spec.id && State() == spec.db
    {
      match Tables.FindAuthor(authors, name)
      case Some(i) =>
        id := i + 1;
      case None =>
        authors := authors + [Author(|authors| + 1, name, None)];
        id := |authors|;
    }

    /** `Article::where('url', url)->first()` tested for presence. */
    method HasUrl(url: string) returns (found: bool)
      ensures found <==> Tables.UrlTaken(articles, url)
    {
      var i := Tables.FindByUrl(articles, url);
      found := i.Some?;
    }

    method CreateArticle(a: Article) returns (id: nat)
      modifies this
      ensures var spec := Tables.CreateArticle(old(State()), a);
        id == spec.id && State() == spec.db
    {
      articles := articles + [a.(id := |articles| + 1)];
      id := |articles|;
    }

    method Attach(articleId: nat, authorId: nat)
      modifies this
      ensures State() == Tables.Attach(old(State()), articleId, authorId)
    {
      attachments := attachments + [Attachment(articleId, authorId)];
    }

    method DeletePreferences(user: nat, kind: Schema.PreferenceType)
      modifies this
      ensures State() == old(State()).(preferences := Tables.DeleteOfType(old(preferences), user, kind))
    {
      preferences := Tables.DeleteOfType(preferences, user, kind);
    }

    /** Insert one preference row; `false` when the unique index rejects it. */
    method InsertPreference(p: Preference) returns (ok: bool)
      modifies this
      ensures var spec := Tables.InsertPreference(old(State()), p);
        ok == spec.Ok? && State() == (if ok then spec.value else old(State()))
    {
      ok := p !in preferences;
      if ok {
        preferences := preferences + [p];
      }
    }
  }
}
