/** `UserPreferenceController`: the three setters, which validate the id list, delete the
    user's rows of one preference type and insert one row per requested id, and `index`,
    which lists the rows the user's preferences of each type point at. Each setter runs
    without a transaction, so an insert that fails leaves the delete and the earlier
    inserts in place. */
module Preferences {
  import opened Php
  import opened Schema
  import opened Fields
  import opened Database
  import Tables
  import ArticleController

  /** A row of one of the three tables a preference can point at. */
  datatype Row = SourceRow(source: Source) | CategoryRow(category: Category) | AuthorRow(author: Author)

  function RowId(x: Row): nat {
    match x
    case SourceRow(s) => s.id
    case CategoryRow(c) => c.id
    case AuthorRow(u) => u.id
  }

  /** The table a preference type points at, in table order. */
  function TargetRows(db: Db, kind: PreferenceType): (r: seq<Row>)
    ensures kind == SourcePreference ==> |r| == |db.sources| && forall i :: 0 <= i < |r| ==> r[i] == SourceRow(db.sources[i])
    ensures kind == CategoryPreference ==> |r| == |db.categories| && forall i :: 0 <= i < |r| ==> r[i] == CategoryRow(db.categories[i])
    ensures kind == AuthorPreference ==> |r| == |db.authors| && forall i :: 0 <= i < |r| ==> r[i] == AuthorRow(db.authors[i])
  {
    match kind
    case SourcePreference => seq(|db.sources|, i requires 0 <= i < |db.sources| => SourceRow(db.sources[i]))
    case CategoryPreference => seq(|db.categories|, i requires 0 <= i < |db.categories| => CategoryRow(db.categories[i]))
    case AuthorPreference => seq(|db.authors|, i requires 0 <= i < |db.authors| => AuthorRow(db.authors[i]))
  }

  /** `whereIn('id', ids)->get()`: the rows whose id is in `ids`, in table order. */
  function WithIds(rows: seq<Row>, ids: set<nat>): (r: seq<Row>)
    ensures forall x :: x in r <==> x in rows && RowId(x) in ids
    decreases |rows|
  {
    if rows == [] then []
    else
      var last := rows[|rows| - 1];
      assert rows == rows[..|rows| - 1] + [last];
      WithIds(rows[..|rows| - 1], ids) + (if RowId(last) in ids then [last] else [])
  }

  // ------------------------------------------------------------------ index

  /** The inner join of `preferredSources` (and the other two relations): for each of the
      user's preference rows of the type, the target rows with that id. */
  function Joined(rows: seq<Row>, prefs: seq<Preference>, user: nat, kind: PreferenceType): (r: seq<Row>)
    ensures forall x :: x in r <==> x in rows && Preference(user, kind, RowId(x)) in prefs
    decreases |prefs|
  {
    if prefs == [] then []
    else
      var last := prefs[|prefs| - 1];
      assert prefs == prefs[..|prefs| - 1] + [last];
      Joined(rows, prefs[..|prefs| - 1], user, kind)
        + (if Tables.OfUserType(last, user, kind) then WithIds(rows, {last.preferenceId}) else [])
  }

  function Preferred(db: Db, user: nat, kind: PreferenceType): seq<Row> {
    Joined(TargetRows(db, kind), db.preferences, user, kind)
  }

  datatype PreferenceLists = PreferenceLists(sources: seq<Row>, categories: seq<Row>, authors: seq<Row>)

  /** `index`: the three lists of the response. */
  function Index(db: Db, user: nat): (r: PreferenceLists)
    ensures forall x :: x in r.sources ==> x in TargetRows(db, SourcePreference)
    ensures forall x :: x in r.categories ==> x in TargetRows(db, CategoryPreference)
    ensures forall x :: x in r.authors ==> x in TargetRows(db, AuthorPreference)
  {
    PreferenceLists(
      Preferred(db, user, SourcePreference),
      Preferred(db, user, CategoryPreference),
      Preferred(db, user, AuthorPreference))
  }

  /** Each list of `index` holds exactly the rows of its own table that one of the user's
      preferences of its own type points at. */
  lemma IndexOwnType(db: Db, user: nat)
    ensures forall x :: x in Index(db, user).sources <==>
      (exists s :: s in db.sources && x == SourceRow(s)) && Preference(user, SourcePreference, RowId(x)) in db.preferences
    ensures forall x :: x in Index(db, user).categories <==>
      (exists c :: c in db.categories && x == CategoryRow(c)) && Preference(user, CategoryPreference, RowId(x)) in db.preferences
    ensures forall x :: x in Index(db, user).authors <==>
      (exists u :: u in db.authors && x == AuthorRow(u)) && Preference(user, AuthorPreference, RowId(x)) in db.preferences
  {
    forall x | x in Index(db, user).sources ensures exists s :: s in db.sources && x == SourceRow(s) {
      var i :| 0 <= i < |TargetRows(db, SourcePreference)| && TargetRows(db, SourcePreference)[i] == x;
      assert db.sources[i] in db.sources;
    }
    forall x | x in Index(db, user).categories ensures exists c :: c in db.categories && x == CategoryRow(c) {
      var i :| 0 <= i < |TargetRows(db, CategoryPreference)| && TargetRows(db, CategoryPreference)[i] == x;
      assert db.categories[i] in db.categories;
    }
    forall x | x in Index(db, user).authors ensures exists u :: u in db.authors && x == AuthorRow(u) {
      var i :| 0 <= i < |TargetRows(db, AuthorPreference)| && TargetRows(db, AuthorPreference)[i] == x;
      assert db.authors[i] in db.authors;
    }
    forall s | s in db.sources ensures SourceRow(s) in TargetRows(db, SourcePreference) {
      var i :| 0 <= i < |db.sources| && db.sources[i] == s;
      assert TargetRows(db, SourcePreference)[i] == SourceRow(s);
    }
    forall c | c in db.categories ensures CategoryRow(c) in TargetRows(db, CategoryPreference) {
      var i :| 0 <= i < |db.categories| && db.categories[i] == c;
      assert TargetRows(db, CategoryPreference)[i] == CategoryRow(c);
    }
    forall u | u in db.authors ensures AuthorRow(u) in TargetRows(db, AuthorPreference) {
      var i :| 0 <= i < |db.authors| && db.authors[i] == u;
      assert TargetRows(db, AuthorPreference)[i] == AuthorRow(u);
    }
  }

  /** The personalised feed reads the same relations: its id sets are the ids of the
      rows `index` lists. */
  lemma FeedReadsIndexLists(db: Db, user: nat, kind: PreferenceType)
    ensures ArticleController.PreferredIds(db, user, kind) == set x | x in Preferred(db, user, kind) :: RowId(x)
  {
    var rows := TargetRows(db, kind);
    var listed := set x | x in Preferred(db, user, kind) :: RowId(x);
    forall id | id in ArticleController.PreferredIds(db, user, kind) ensures id in listed {
      var x: Row;
      match kind {
        case SourcePreference =>
          var s :| s in db.sources && s.id == id;
          var i :| 0 <= i < |db.sources| && db.sources[i] == s;
          x := rows[i];
        case CategoryPreference =>
          var c :| c in db.categories && c.id == id;
          var i :| 0 <= i < |db.categories| && db.categories[i] == c;
          x := rows[i];
        case AuthorPreference =>
          var u :| u in db.authors && u.id == id;
          var i :| 0 <= i < |db.authors| && db.authors[i] == u;
          x := rows[i];
      }
      assert x in Preferred(db, user, kind);
    }
    forall id | id in listed ensures id in ArticleController.PreferredIds(db, user, kind) {
      var x :| x in Preferred(db, user, kind) && RowId(x) == id;
      var i :| 0 <= i < |rows| && rows[i] == x;
      match kind {
        case SourcePreference => assert db.sources[i] in db.sources;
        case CategoryPreference => assert db.categories[i] in db.categories;
        case AuthorPreference => assert db.authors[i] in db.authors;
      }
    }
  }

  // ------------------------------------------------------------------ validation

  /** Laravel's `required`: present, not null, not a blank string, not an empty array. */
  predicate Required(v: Option<Json>)
    ensures Required(v) ==> v.Some? && v.value !in {JNull, JStr(""), JList([]), JObj([])}
  {
    v.Some? &&
    match v.value
    case JNull => false
    case JStr(s) => Trim(s) != ""
    case JList(items) => items != []
    case JObj(fields) => fields != []
    case _ => true
  }

  /** Laravel's `array`: a JSON list or object. */
  predicate IsArray(v: Json)
    ensures IsArray(v) <==> Items(v).Ok?
  {
    v.JList? || v.JObj?
  }

  /** `exists:<table>,id` for one element: an integer that is the id of a target row. */
  predicate IdExists(db: Db, kind: PreferenceType, x: Json)
    ensures IdExists(db, kind, x) ==> x.JNum? && x.n >= 0 && WithIds(TargetRows(db, kind), {x.n}) != []
  {
    x.JNum? && x.n >= 0 && exists y :: y in TargetRows(db, kind) && RowId(y) == x.n
  }

  /** The three rules together: the request passes validation. */
  predicate Accepts(db: Db, kind: PreferenceType, v: Option<Json>)
    ensures Accepts(db, kind, v) ==> v.Some? && Items(v.value).Ok? && Items(v.value).value != []
  {
    && Required(v)
    && IsArray(v.value)
    && forall x :: x in Items(v.value).value ==> IdExists(db, kind, x)
  }

  /** The ids of a validated list, in request order. */
  function Ids(xs: seq<Json>): (r: seq<nat>)
    requires forall x :: x in xs ==> x.JNum? && x.n >= 0
    ensures |r| == |xs| && forall i :: 0 <= i < |xs| ==> xs[i] == JNum(r[i])
  {
    seq(|xs|, i requires 0 <= i < |xs| => xs[i].n)
  }

  function RequestIds(db: Db, kind: PreferenceType, v: Option<Json>): seq<nat>
    requires Accepts(db, kind, v)
  {
    Ids(Items(v.value).value)
  }

  /** An empty list fails `required`: a setter can never clear a type. */
  lemma EmptyListRejected(db: Db, kind: PreferenceType)
    ensures !Accepts(db, kind, Some(JList([])))
    ensures !Accepts(db, kind, Some(JObj([])))
    ensures !Accepts(db, kind, None)
  {
  }

  // ------------------------------------------------------------------ setters

  /** The request's triples for one user and type, in request order. */
  function Triples(user: nat, kind: PreferenceType, ids: seq<nat>): (r: seq<Preference>)
    ensures |r| == |ids| && forall i :: 0 <= i < |ids| ==> r[i] == Preference(user, kind, ids[i])
  {
    seq(|ids|, i requires 0 <= i < |ids| => Preference(user, kind, ids[i]))
  }

  /** The insert loop: one `UserPreference::create` per id, stopping at the first one the
      unique index rejects. The rows written are the triples of a prefix of the ids, all
      of them when the loop completes. */
  function InsertAll(d: Db, user: nat, kind: PreferenceType, ids: seq<nat>): (r: Progress)
    ensures r.db == d.(preferences := r.db.preferences)
    ensures Valid(d) ==> Valid(r.db)
    decreases |ids|
  {
    if ids == [] then Progress(d, true)
    else
      var before := InsertAll(d, user, kind, ids[..|ids| - 1]);
      if !before.ok then before
      else match Tables.InsertPreference(before.db, Preference(user, kind, ids[|ids| - 1]))
        case Thrown => Progress(before.db, false)
        case Ok(e) => Progress(e, true)
  }

  /** The rows the insert loop writes are the triples of a prefix of the ids, all of them
      exactly when the loop completes. */
  lemma {:induction false} InsertAllPrefix(d: Db, user: nat, kind: PreferenceType, ids: seq<nat>)
    ensures var r := InsertAll(d, user, kind, ids);
      exists n :: 0 <= n <= |ids| && r.db.preferences == d.preferences + Triples(user, kind, ids[..n]) && (r.ok <==> n == |ids|)
    decreases |ids|
  {
    if ids == [] {
      assert d.preferences + Triples(user, kind, ids[..0]) == d.preferences;
    } else {
      var init := ids[..|ids| - 1];
      InsertAllPrefix(d, user, kind, init);
      var before := InsertAll(d, user, kind, init);
      var n :| 0 <= n <= |init| && before.db.preferences == d.preferences + Triples(user, kind, init[..n]) && (before.ok <==> n == |init|);
      assert init[..n] == ids[..n];
      if before.ok && Tables.InsertPreference(before.db, Preference(user, kind, ids[|ids| - 1])).Ok? {
        assert ids[..|ids|] == ids;
        assert Triples(user, kind, ids) == Triples(user, kind, init) + [Preference(user, kind, ids[|ids| - 1])];
      }
    }
  }

  /** The reply of a setter: the new state and the response. */
  datatype Response = Unprocessable | Updated(rows: seq<Row>) | ServerError
  datatype Reply = Reply(db: Db, response: Response)

  /** The setter for one preference type: validate; delete the user's rows of the type;
      insert the requested triples; answer with the target rows whose id was requested. */
  function Set(db: Db, user: nat, kind: PreferenceType, v: Option<Json>): (r: Reply)
    ensures r.response.Unprocessable? <==> !Accepts(db, kind, v)
    ensures r.response.Unprocessable? ==> r.db == db
  {
    if !Accepts(db, kind, v) then Reply(db, Unprocessable)
    else Apply(db, user, kind, RequestIds(db, kind, v))
  }

  /** What a setter does once the ids are validated. */
  function Apply(db: Db, user: nat, kind: PreferenceType, ids: seq<nat>): (r: Reply)
    ensures r.db == db.(preferences := r.db.preferences)
    ensures !r.response.Unprocessable?
  {
    var cleared := db.(preferences := Tables.DeleteOfType(db.preferences, user, kind));
    var inserted := InsertAll(cleared, user, kind, ids);
    if !inserted.ok then Reply(inserted.db, ServerError)
    else Reply(inserted.db, Updated(WithIds(TargetRows(inserted.db, kind), set x | x in ids)))
  }

  predicate Distinct(ids: seq<nat>) {
    forall i, j :: 0 <= i < j < |ids| ==> ids[i] != ids[j]
  }

  /** On a table holding none of the user's rows of the type, the insert loop completes
      exactly when the ids are pairwise distinct. */
  lemma {:induction false} InsertAllCompletes(d: Db, user: nat, kind: PreferenceType, ids: seq<nat>)
    requires forall p :: p in d.preferences ==> !Tables.OfUserType(p, user, kind)
    ensures InsertAll(d, user, kind, ids).ok <==> Distinct(ids)
    ensures InsertAll(d, user, kind, ids).ok ==> InsertAll(d, user, kind, ids).db.preferences == d.preferences + Triples(user, kind, ids)
    decreases |ids|
  {
    if ids != [] {
      var init := ids[..|ids| - 1];
      var x := ids[|ids| - 1];
      InsertAllCompletes(d, user, kind, init);
      var before := InsertAll(d, user, kind, init);
      if before.ok {
        TripleIn(d, user, kind, init, x);
        if x in init {
          var i :| 0 <= i < |init| && init[i] == x;
          assert ids[i] == ids[|ids| - 1];
        } else {
          assert Triples(user, kind, ids) == Triples(user, kind, init) + [Preference(user, kind, x)];
        }
      } else {
        var i, j :| 0 <= i < j < |init| && init[i] == init[j];
        assert ids[i] == ids[j];
      }
    }
  }

  /** With none of the user's rows of the type present beforehand, a triple is among the
      rows after appending the request's triples exactly when its id was requested. */
  lemma TripleIn(d: Db, user: nat, kind: PreferenceType, ids: seq<nat>, x: nat)
    requires forall p :: p in d.preferences ==> !Tables.OfUserType(p, user, kind)
    ensures Preference(user, kind, x) in d.preferences + Triples(user, kind, ids) <==> x in ids
  {
    if x in ids {
      var i :| 0 <= i < |ids| && ids[i] == x;
      assert Triples(user, kind, ids)[i] == Preference(user, kind, x);
    }
    if Preference(user, kind, x) in d.preferences + Triples(user, kind, ids) {
      assert Preference(user, kind, x) !in d.preferences;
      var i :| 0 <= i < |ids| && Triples(user, kind, ids)[i] == Preference(user, kind, x);
      assert ids[i] == x;
    }
  }

  /** A setter answers 422 exactly when validation fails, and then changes nothing. */
  lemma SetValidation(db: Db, user: nat, kind: PreferenceType, v: Option<Json>)
    ensures Set(db, user, kind, v).response.Unprocessable? <==> !Accepts(db, kind, v)
    ensures Set(db, user, kind, v).response.Unprocessable? ==> Set(db, user, kind, v).db == db
  {
  }

  /** Whatever the outcome, only preference rows of this user and type change, and the
      other tables stay as they were. */
  lemma SetTouchesOnlyItsType(db: Db, user: nat, kind: PreferenceType, v: Option<Json>)
    ensures var r := Set(db, user, kind, v);
      && r.db == db.(preferences := r.db.preferences)
      && forall p :: !Tables.OfUserType(p, user, kind) ==> (p in r.db.preferences <==> p in db.preferences)
  {
    var r := Set(db, user, kind, v);
    if Accepts(db, kind, v) {
      var ids := RequestIds(db, kind, v);
      var cleared := db.(preferences := Tables.DeleteOfType(db.preferences, user, kind));
      InsertAllPrefix(cleared, user, kind, ids);
      var n :| 0 <= n <= |ids| && r.db.preferences == cleared.preferences + Triples(user, kind, ids[..n]);
      assert forall p :: p in Triples(user, kind, ids[..n]) ==> Tables.OfUserType(p, user, kind);
    }
  }

  /** A successful setter replaces the user's preferences of the type by the requested
      ids — it does not merge with the old ones — and answers with the target rows whose
      id was requested. */
  lemma SetReplaces(db: Db, user: nat, kind: PreferenceType, v: Option<Json>)
    requires Set(db, user, kind, v).response.Updated?
    ensures Accepts(db, kind, v)
    ensures var r := Set(db, user, kind, v);
      forall x :: Preference(user, kind, x) in r.db.preferences <==> x in RequestIds(db, kind, v)
    ensures var r := Set(db, user, kind, v);
      forall y :: y in r.response.rows <==> y in TargetRows(db, kind) && RowId(y) in RequestIds(db, kind, v)
  {
    var ids := RequestIds(db, kind, v);
    var cleared := db.(preferences := Tables.DeleteOfType(db.preferences, user, kind));
    InsertAllCompletes(cleared, user, kind, ids);
    var r := Set(db, user, kind, v);
    forall x ensures Preference(user, kind, x) in r.db.preferences <==> x in ids {
      TripleIn(cleared, user, kind, ids, x);
    }
  }

  /** Accepted ids with a repeat fail at the second copy, after the delete: the answer
      is a server error, and every old row of the type whose id was not requested is gone. */
  lemma SetDuplicateFails(db: Db, user: nat, kind: PreferenceType, v: Option<Json>)
    requires Accepts(db, kind, v)
    ensures Set(db, user, kind, v).response.ServerError? <==> !Distinct(RequestIds(db, kind, v))
    ensures var r := Set(db, user, kind, v);
      forall x :: Preference(user, kind, x) in r.db.preferences ==> x in RequestIds(db, kind, v)
  {
    var ids := RequestIds(db, kind, v);
    var cleared := db.(preferences := Tables.DeleteOfType(db.preferences, user, kind));
    InsertAllCompletes(cleared, user, kind, ids);
    var r := Set(db, user, kind, v);
    InsertAllPrefix(cleared, user, kind, ids);
    var n :| 0 <= n <= |ids| && r.db.preferences == cleared.preferences + Triples(user, kind, ids[..n]);
    forall x | Preference(user, kind, x) in r.db.preferences ensures x in ids {
      var i :| 0 <= i < n && Triples(user, kind, ids[..n])[i] == Preference(user, kind, x);
      assert ids[i] == x;
    }
  }

  /** A setter keeps the store invariant, whatever it answers. */
  lemma SetKeepsValid(db: Db, user: nat, kind: PreferenceType, v: Option<Json>)
    requires Valid(db)
    ensures Valid(Set(db, user, kind, v).db)
  {
    if Accepts(db, kind, v) {
      var cleared := db.(preferences := Tables.DeleteOfType(db.preferences, user, kind));
      assert Valid(cleared);
      assert Set(db, user, kind, v).db == InsertAll(cleared, user, kind, RequestIds(db, kind, v)).db;
    }
  }

  // ------------------------------------------------------------------ the setters as they run

  /** A validated setter as it runs against the store: the delete, then the `foreach` of
      `create`s; an insert the unique index rejects ends the request with a server error. */
  method SetPreferences(store: Store, user: nat, kind: PreferenceType, v: Option<Json>) returns (response: Response)
    modifies store
    ensures Reply(store.State(), response) == Set(old(store.State()), user, kind, v)
  {
    if !Accepts(store.State(), kind, v) {
      return Unprocessable;
    }
    var ids := RequestIds(store.State(), kind, v);
    assert Set(old(store.State()), user, kind, v) == Apply(old(store.State()), user, kind, ids);
    store.DeletePreferences(user, kind);
    var ok := InsertEach(store, user, kind, ids);
    if !ok {
      return ServerError;
    }
    return Updated(WithIds(TargetRows(store.State(), kind), set x | x in ids));
  }

  /** The `foreach` of `UserPreference::create`s; `false` at the first row the unique
      index rejects, with the rows before it kept. */
  method InsertEach(store: Store, user: nat, kind: PreferenceType, ids: seq<nat>) returns (ok: bool)
    modifies store
    ensures InsertAll(old(store.State()), user, kind, ids) == Progress(store.State(), ok)
  {
    var i := 0;
    while i < |ids|
      invariant 0 <= i <= |ids|
      invariant InsertAll(old(store.State()), user, kind, ids[..i]) == Progress(store.State(), true)
    {
      ghost var before := store.State();
      InsertAllNext(old(store.State()), user, kind, ids, i);
      ok := store.InsertPreference(Preference(user, kind, ids[i]));
      ghost var next := Tables.InsertPreference(before, Preference(user, kind, ids[i]));
      if !ok {
        assert InsertAll(old(store.State()), user, kind, ids[..i + 1]) == Progress(before, false);
        InsertAllStopsAtFailure(old(store.State()), user, kind, ids, i + 1);
        return false;
      }
      assert InsertAll(old(store.State()), user, kind, ids[..i + 1]) == Progress(next.value, true);
      i := i + 1;
    }
    assert ids[..i] == ids;
    return true;
  }

  /** The loop over one more id is the loop so far followed by that insert, unless the
      loop has already stopped. */
  lemma InsertAllNext(d: Db, user: nat, kind: PreferenceType, ids: seq<nat>, i: nat)
    requires i < |ids|
    ensures var before := InsertAll(d, user, kind, ids[..i]);
      var next := Tables.InsertPreference(before.db, Preference(user, kind, ids[i]));
      InsertAll(d, user, kind, ids[..i + 1]) ==
        if !before.ok then before else if next.Thrown? then Progress(before.db, false) else Progress(next.value, true)
  {
    assert ids[..i + 1][..i] == ids[..i];
  }

  /** Once the loop has failed, the remaining ids are never tried. */
  lemma {:induction false} InsertAllStopsAtFailure(d: Db, user: nat, kind: PreferenceType, ids: seq<nat>, n: nat)
    requires n <= |ids| && !InsertAll(d, user, kind, ids[..n]).ok
    ensures InsertAll(d, user, kind, ids) == InsertAll(d, user, kind, ids[..n])
    decreases |ids|
  {
    if n < |ids| {
      var init := ids[..|ids| - 1];
      assert init[..n] == ids[..n];
      InsertAllStopsAtFailure(d, user, kind, init, n);
    } else {
      assert ids[..n] == ids;
    }
  }

  /** `setSources`. */
  method SetSources(store: Store, user: nat, sourceIds: Option<Json>) returns (response: Response)
    modifies store
    ensures Reply(store.State(), response) == Set(old(store.State()), user, SourcePreference, sourceIds)
  {
    response := SetPreferences(store, user, SourcePreference, sourceIds);
  }

  /** `setCategories`. */
  method SetCategories(store: Store, user: nat, categoryIds: Option<Json>) returns (response: Response)
    modifies store
    ensures Reply(store.State(), response) == Set(old(store.State()), user, CategoryPreference, categoryIds)
  {
    response := SetPreferences(store, user, CategoryPreference, categoryIds);
  }

  /** `setAuthors`. */
  method SetAuthors(store: Store, user: nat, authorIds: Option<Json>) returns (response: Response)
    modifies store
    ensures Reply(store.State(), response) == Set(old(store.State()), user, AuthorPreference, authorIds)
  {
    response := SetPreferences(store, user, AuthorPreference, authorIds);
  }
}
