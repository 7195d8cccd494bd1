/** What the three ingestion loops compute alike from a raw record. */
module Fields {
  import opened Php
  import opened Schema
  import Tables

  /** `$stamp ? Carbon::parse($stamp) : now()`, where `$stamp` was read without `??`:
      a falsy stamp falls back to the clock, a truthy one that `Carbon::parse` rejects
      raises. */
  function PublishedAt(lib: Library, stamp: Json): (r: Result<Instant>)
    ensures !Truthy(stamp) ==> r == Ok(lib.now)
    ensures stamp.JStr? && Truthy(stamp) ==>
      r == (if lib.parse(stamp.s).Some? then Ok(lib.parse(stamp.s).value) else Thrown)
    ensures Truthy(stamp) && (stamp.JList? || stamp.JObj?) ==> r.Thrown?
  {
    if Truthy(stamp) then
      var text :- ToText(stamp);
      match lib.parse(text)
      case Some(t) => Ok(t)
      case None => Thrown
    else Ok(lib.now)
  }

  /** The store after an inner `foreach` that attaches authors, and whether it ran to the
      end (`false`: an exception left the loop, and the rows written so far stay). */
  datatype Progress = Progress(db: Db, ok: bool)

  /** The pivot row is for `articleId` and points at an author row named `name`. */
  predicate AttachedAs(d: Db, at: Attachment, articleId: nat, name: string) {
    at.articleId == articleId && 1 <= at.authorId <= |d.authors| && d.authors[at.authorId - 1].name == name
  }

  /** The pivot rows after the first `base` are, in order, one per name in `names`, each
      for `articleId` and each pointing at an author row with that name. */
  predicate AttachedInOrder(base: nat, d: Db, articleId: nat, names: seq<string>) {
    && |d.attachments| == base + |names|
    && forall j :: base <= j < |d.attachments| ==> AttachedAs(d, d.attachments[j], articleId, names[j - base])
  }

  /** Attaching one more author by name extends the ordered list by that name: the rows
      attached before keep pointing at authors of the same names. */
  lemma AttachNamedInOrder(base: nat, d: Db, articleId: nat, names: seq<string>, name: string)
    requires AttachedInOrder(base, d, articleId, names)
    ensures AttachedInOrder(base, Tables.AttachAuthorNamed(d, articleId, name), articleId, names + [name])
  {
    var e := Tables.AttachAuthorNamed(d, articleId, name);
    var author := Tables.FirstOrCreateAuthor(d, name);
    var all := names + [name];
    assert e.authors == author.db.authors && d.authors <= e.authors;
    assert e.attachments == d.attachments + [Attachment(articleId, author.id)];
    forall j | base <= j < |e.attachments|
      ensures AttachedAs(e, e.attachments[j], articleId, all[j - base])
    {
      if j < |d.attachments| {
        assert AttachedAs(d, d.attachments[j], articleId, names[j - base]);
      }
    }
  }
}
