/** `FetchNewsCommand::handle` (`news:fetch {source?}`): runs the providers the argument
    selects, in the order NewsAPI, The Guardian, New York Times, reports how many articles
    each saved, and answers SUCCESS, or FAILURE when an exception reaches the command's
    `catch`. What a provider's HTTP request brings back is a parameter. */
module FetchNews {
  import opened Php
  import opened Schema
  import opened Database
  import opened Ingestion
  import NewsApiService
  import GuardianService
  import NYTimesService

  /** The command-line name of a provider. */
  function Name(p: Provider): string {
    match p
    case NewsApi => "newsapi"
    case Guardian => "guardian"
    case NYTimes => "nytimes"
  }

  /** The position of a provider's block in `handle`. */
  function Rank(p: Provider): nat {
    match p
    case NewsApi => 0
    case Guardian => 1
    case NYTimes => 2
  }

  /** The guard of a provider's block, `$source === '<name>' || $source === null`. */
  predicate Guard(source: Option<string>, p: Provider) {
    source == Some(Name(p)) || source.None?
  }

  /** The names are pairwise different, so an argument selects at most one provider. */
  lemma NamesDiffer(p: Provider, q: Provider)
    ensures Name(p) == Name(q) <==> p == q
  {
    assert "newsapi"[0] != "guardian"[0] && "newsapi"[1] != "nytimes"[1];
    assert "guardian"[0] != "nytimes"[0];
  }

  /** The providers whose guard holds, in the order of the blocks: every provider
      without an argument, the one with exactly that name otherwise. */
  function Selected(source: Option<string>): (r: seq<Provider>)
    ensures forall p :: p in r <==> Guard(source, p)
    ensures forall i, j :: 0 <= i < j < |r| ==> Rank(r[i]) < Rank(r[j])
    ensures source.Some? ==> |r| <= 1
  {
    var r := (if Guard(source, NewsApi) then [NewsApi] else [])
      + (if Guard(source, Guardian) then [Guardian] else [])
      + (if Guard(source, NYTimes) then [NYTimes] else []);
    assert source.Some? ==> |r| <= 1 by {
      NamesDiffer(NewsApi, Guardian);
      NamesDiffer(NewsApi, NYTimes);
      NamesDiffer(Guardian, NYTimes);
    }
    assert forall p :: p in r <==> Guard(source, p) by {
      forall p ensures p in r <==> Guard(source, p) {
        if p == NewsApi {
          assert Guard(source, p) ==> r[0] == p;
        } else if p == NYTimes {
          assert Guard(source, p) ==> r[|r| - 1] == p;
        }
      }
    }
    r
  }

  /** What one provider's `fetchArticles` gets before `processArticles`: the unwrapped
      article list of a successful response; nothing, when the request failed or raised
      inside `fetchArticles` (which then returns `[]`); or an exception that gets past
      `fetchArticles` to the command. */
  datatype Fetch = Fetched(articles: Json) | FetchFailed | Escaped

  /** The console lines `handle` writes. */
  datatype Line = Fetching(provider: Provider) | SavedCount(provider: Provider, count: nat) | Completed | Failed

  const Success := 0
  const Failure := 1

  /** `fetchArticles` after the request: the records processed from the store `db`, or
      `[]` with nothing written; `None` when the exception escapes. A list that is not an
      array makes the `foreach` raise, which `fetchArticles` catches. */
  function FetchArticles(p: Provider, lib: Library, db: Db, fetch: Fetch): (r: Option<Run>)
    ensures r.None? <==> fetch.Escaped?
    ensures r.Some? ==> Extends(db, r.value.db)
    ensures r.Some? && (fetch.FetchFailed? || Items(fetch.articles).Thrown?) ==> r.value == Run(db, [])
    ensures fetch.Fetched? && Items(fetch.articles).Ok? ==> r == Some(Batch(p, lib, db, Items(fetch.articles).value))
  {
    match fetch
    case Escaped => None
    case FetchFailed => Some(Run(db, []))
    case Fetched(articles) =>
      match Items(articles)
      case Thrown => Some(Run(db, []))
      case Ok(records) => Some(Batch(p, lib, db, records))
  }

  datatype Progress = Progress(db: Db, lines: seq<Line>, ok: bool)

  /** One `if` block of `handle`, skipped once an exception has escaped: the
      "Fetching" line, then the saved count, or the escape. */
  function Block(lib: Library, p: Provider, source: Option<string>, fetched: Provider -> Fetch, prog: Progress): (r: Progress)
    ensures Extends(prog.db, r.db)
    ensures !prog.ok || !Guard(source, p) ==> r == prog
    ensures prog.ok ==> (r.ok <==> !(Guard(source, p) && fetched(p).Escaped?))
    ensures prog.lines <= r.lines
  {
    if !prog.ok || !Guard(source, p) then prog
    else match FetchArticles(p, lib, prog.db, fetched(p))
      case None => Progress(prog.db, prog.lines + [Fetching(p)], false)
      case Some(run) => Progress(run.db, prog.lines + [Fetching(p), SavedCount(p, |run.saved|)], true)
  }

  datatype Outcome = Outcome(db: Db, lines: seq<Line>, exit: int)

  /** The three blocks in turn. */
  function Blocks(lib: Library, db: Db, source: Option<string>, fetched: Provider -> Fetch): Progress {
    Block(lib, NYTimes, source, fetched,
      Block(lib, Guardian, source, fetched,
        Block(lib, NewsApi, source, fetched, Progress(db, [], true))))
  }

  /** `handle`: the blocks, then the completion line and SUCCESS, or the error line and
      FAILURE. */
  function Handle(lib: Library, db: Db, source: Option<string>, fetched: Provider -> Fetch): (r: Outcome)
    ensures Extends(db, r.db)
  {
    var run := Blocks(lib, db, source, fetched);
    if run.ok then Outcome(run.db, run.lines + [Completed], Success)
    else Outcome(run.db, run.lines + [Failed], Failure)
  }

  /** The providers a run of lines started, in order. */
  function Started(lines: seq<Line>): (r: seq<Provider>)
    ensures |r| <= |lines|
    decreases |lines|
  {
    if lines == [] then []
    else Started(lines[..|lines| - 1]) + (if lines[|lines| - 1].Fetching? then [lines[|lines| - 1].provider] else [])
  }

  lemma {:induction false} StartedAppend(a: seq<Line>, b: seq<Line>)
    ensures Started(a + b) == Started(a) + Started(b)
    decreases |b|
  {
    if b == [] {
      assert a + b == a;
    } else {
      assert (a + b)[..|a + b| - 1] == a + b[..|b| - 1];
      StartedAppend(a, b[..|b| - 1]);
    }
  }

  /** A block that runs starts its provider and nothing else. */
  lemma BlockStarts(lib: Library, p: Provider, source: Option<string>, fetched: Provider -> Fetch, prog: Progress)
    ensures Started(Block(lib, p, source, fetched, prog).lines)
      == Started(prog.lines) + (if prog.ok && Guard(source, p) then [p] else [])
  {
    if prog.ok && Guard(source, p) {
      match FetchArticles(p, lib, prog.db, fetched(p)) {
        case None =>
          StartedAppend(prog.lines, [Fetching(p)]);
          assert Started([Fetching(p)]) == [p] by { assert [Fetching(p)][..0] == []; }
        case Some(run) =>
          var tail := [Fetching(p), SavedCount(p, |run.saved|)];
          StartedAppend(prog.lines, tail);
          assert tail[..1] == [Fetching(p)] && [Fetching(p)][..0] == [];
      }
    }
  }

  /** When no selected provider lets an exception escape, the blocks start exactly the
      selected providers, in order, and none of them fails. */
  lemma BlocksRunSelected(lib: Library, db: Db, source: Option<string>, fetched: Provider -> Fetch)
    requires forall p :: Guard(source, p) ==> !fetched(p).Escaped?
    ensures Blocks(lib, db, source, fetched).ok
    ensures Started(Blocks(lib, db, source, fetched).lines) == Selected(source)
  {
    var p0 := Progress(db, [], true);
    var p1 := Block(lib, NewsApi, source, fetched, p0);
    var p2 := Block(lib, Guardian, source, fetched, p1);
    BlockStarts(lib, NewsApi, source, fetched, p0);
    BlockStarts(lib, Guardian, source, fetched, p1);
    BlockStarts(lib, NYTimes, source, fetched, p2);
    var g0 := if Guard(source, NewsApi) then [NewsApi] else [];
    assert [] + g0 == g0;
  }

  /** When no selected provider lets an exception escape, the command runs exactly the
      selected providers, in the order of the blocks, and answers SUCCESS. */
  lemma HandleRunsSelected(lib: Library, db: Db, source: Option<string>, fetched: Provider -> Fetch)
    requires forall p :: Guard(source, p) ==> !fetched(p).Escaped?
    ensures Started(Handle(lib, db, source, fetched).lines) == Selected(source)
    ensures Handle(lib, db, source, fetched).exit == Success
  {
    BlocksRunSelected(lib, db, source, fetched);
    var run := Blocks(lib, db, source, fetched);
    StartedAppend(run.lines, [Completed]);
    assert Started([Completed]) == [] by { assert [Completed][..0] == []; }
  }

  /** The command answers FAILURE exactly when a selected provider lets an exception
      escape, and SUCCESS otherwise. */
  lemma HandleExit(lib: Library, db: Db, source: Option<string>, fetched: Provider -> Fetch)
    ensures Handle(lib, db, source, fetched).exit == Failure <==> exists p :: Guard(source, p) && fetched(p).Escaped?
    ensures Handle(lib, db, source, fetched).exit in {Success, Failure}
  {
    var p0 := Progress(db, [], true);
    var p1 := Block(lib, NewsApi, source, fetched, p0);
    var p2 := Block(lib, Guardian, source, fetched, p1);
    if exists p :: Guard(source, p) && fetched(p).Escaped? {
      var p :| Guard(source, p) && fetched(p).Escaped?;
      match p {
        case NewsApi =>
        case Guardian => assert !p2.ok;
        case NYTimes =>
      }
    }
  }

  /** An argument that names no provider runs none, writes nothing and still succeeds. */
  lemma UnknownSourceSucceeds(lib: Library, db: Db, name: string, fetched: Provider -> Fetch)
    requires name !in {"newsapi", "guardian", "nytimes"}
    ensures Handle(lib, db, Some(name), fetched) == Outcome(db, [Completed], Success)
  {
  }

  /** A block whose provider is selected and does not let an exception escape writes
      its two lines and leaves the store its batch left. */
  lemma BlockRuns(lib: Library, p: Provider, source: Option<string>, fetched: Provider -> Fetch, prog: Progress)
    requires prog.ok && Guard(source, p) && !fetched(p).Escaped?
    ensures var run := FetchArticles(p, lib, prog.db, fetched(p)).value;
      Block(lib, p, source, fetched, prog) == Progress(run.db, prog.lines + [Fetching(p), SavedCount(p, |run.saved|)], true)
  {
  }

  /** Naming one provider runs exactly that one: its saved count is the length of the
      list its `processArticles` returned, and the store is what that batch left. */
  lemma SingleProvider(lib: Library, db: Db, p: Provider, fetched: Provider -> Fetch)
    requires fetched(p).Fetched? && Items(fetched(p).articles).Ok?
    ensures var run := Batch(p, lib, db, Items(fetched(p).articles).value);
      Handle(lib, db, Some(Name(p)), fetched) == Outcome(run.db, [Fetching(p), SavedCount(p, |run.saved|), Completed], Success)
  {
    NamesDiffer(p, NewsApi);
    NamesDiffer(p, Guardian);
    NamesDiffer(p, NYTimes);
    var source := Some(Name(p));
    var run := Batch(p, lib, db, Items(fetched(p).articles).value);
    var p0 := Progress(db, [], true);
    var p1 := Block(lib, NewsApi, source, fetched, p0);
    var p2 := Block(lib, Guardian, source, fetched, p1);
    var p3 := Block(lib, NYTimes, source, fetched, p2);
    var done := Progress(run.db, [Fetching(p), SavedCount(p, |run.saved|)], true);
    BlockRuns(lib, p, source, fetched, if p == NewsApi then p0 else if p == Guardian then p1 else p2);
    assert p3 == done by {
      if p == NewsApi {
        assert p1 == done;
      } else if p == Guardian {
        assert p1 == p0 && p2 == done;
      } else {
        assert p2 == p0;
      }
    }
  }

  /** Without an argument the three providers run in the order NewsAPI, The Guardian,
      New York Times, each on the store the previous one left. */
  lemma AllProvidersInOrder(lib: Library, db: Db, fetched: Provider -> Fetch)
    requires forall p :: !fetched(p).Escaped?
    ensures var a := FetchArticles(NewsApi, lib, db, fetched(NewsApi)).value;
      var b := FetchArticles(Guardian, lib, a.db, fetched(Guardian)).value;
      var c := FetchArticles(NYTimes, lib, b.db, fetched(NYTimes)).value;
      Handle(lib, db, None, fetched) == Outcome(c.db,
        [Fetching(NewsApi), SavedCount(NewsApi, |a.saved|),
         Fetching(Guardian), SavedCount(Guardian, |b.saved|),
         Fetching(NYTimes), SavedCount(NYTimes, |c.saved|), Completed], Success)
  {
    var a := FetchArticles(NewsApi, lib, db, fetched(NewsApi)).value;
    var b := FetchArticles(Guardian, lib, a.db, fetched(Guardian)).value;
    var c := FetchArticles(NYTimes, lib, b.db, fetched(NYTimes)).value;
    var p0 := Progress(db, [], true);
    var p1 := Block(lib, NewsApi, None, fetched, p0);
    var p2 := Block(lib, Guardian, None, fetched, p1);
    var p3 := Block(lib, NYTimes, None, fetched, p2);
    BlockRuns(lib, NewsApi, None, fetched, p0);
    assert p1 == Progress(a.db, [Fetching(NewsApi), SavedCount(NewsApi, |a.saved|)], true);
    BlockRuns(lib, Guardian, None, fetched, p1);
    assert p2.db == b.db;
    BlockRuns(lib, NYTimes, None, fetched, p2);
    assert p3 == Progress(c.db, p2.lines + [Fetching(NYTimes), SavedCount(NYTimes, |c.saved|)], true);
    assert Blocks(lib, db, None, fetched) == p3;
  }

  // ------------------------------------------------------------------ the command as it runs

  /** One provider's `fetchArticles` against the store. */
  method RunProvider(store: Store, lib: Library, p: Provider, fetch: Fetch) returns (saved: Option<seq<Article>>)
    modifies store
    ensures saved.None? <==> fetch.Escaped?
    ensures saved.None? ==> store.State() == old(store.State())
    ensures saved.Some? ==> FetchArticles(p, lib, old(store.State()), fetch) == Some(Run(store.State(), saved.value))
  {
    match fetch {
      case Escaped => return None;
      case FetchFailed => return Some([]);
      case Fetched(articles) =>
        var records := Items(articles);
        if records.Thrown? {
          return Some([]);
        }
        var list: seq<Article>;
        match p {
          case NewsApi => list := NewsApiService.ProcessArticles(store, lib, records.value);
          case Guardian => list := GuardianService.ProcessArticles(store, lib, records.value);
          case NYTimes => list := NYTimesService.ProcessArticles(store, lib, records.value);
        }
        return Some(list);
    }
  }

  /** One `if` block as it runs. */
  method RunBlock(store: Store, lib: Library, p: Provider, source: Option<string>, fetched: Provider -> Fetch, lines: seq<Line>)
    returns (lines': seq<Line>, ok: bool)
    modifies store
    ensures Progress(store.State(), lines', ok) == Block(lib, p, source, fetched, Progress(old(store.State()), lines, true))
  {
    if source == Some(Name(p)) || source == None {
      lines' := lines + [Fetching(p)];
      var saved := RunProvider(store, lib, p, fetched(p));
      if saved.None? {
        return lines', false;
      }
      lines' := lines' + [SavedCount(p, |saved.value|)];
      return lines', true;
    }
    return lines, true;
  }

  /** `handle`: the three guarded blocks inside the `try`, and the `catch`. */
  method HandleCommand(store: Store, lib: Library, source: Option<string>, fetched: Provider -> Fetch)
    returns (lines: seq<Line>, exit: int)
    modifies store
    ensures Outcome(store.State(), lines, exit) == Handle(lib, old(store.State()), source, fetched)
  {
    var ok;
    lines, ok := RunBlock(store, lib, NewsApi, source, fetched, []);
    if ok {
      lines, ok := RunBlock(store, lib, Guardian, source, fetched, lines);
      if ok {
        lines, ok := RunBlock(store, lib, NYTimes, source, fetched, lines);
      }
    }
    if !ok {
      return lines + [Failed], Failure;
    }
    return lines + [Completed], Success;
  }
}
