/**
 * The command-line crawler (main.py): resume from the state file, fetch page 1 for a
 * fresh token and the page count, then walk the pages, saving the records of each page
 * and the resume point after it.
 */
module CliRunner {
  import opened Wrappers
  import opened Text
  import opened Models
  import opened Settings
  import opened Extraction
  import opened Storage
  import opened MongoUtils
  import opened StateFiles
  import opened Fetch

  /** Why a run ended. */
  datatype Stop =
    | InitialFetchFailed  // page 1 could not be fetched: nothing is written
    | ReachedMaxPages     // `max_pages` pages were processed
    | ReachedLastPage     // the page just processed is at or past the announced page count
    | PageFetchFailed     // a page could not be fetched: its number is saved for the next run
    | Crashed             // a fetch raised an exception that is not a request error

  lemma {:induction false} ConcatStep(parts: seq<seq<Doc>>, part: seq<Doc>)
    ensures Concat(parts + [part]) == Concat(parts) + part
  {
    assert (parts + [part])[..|parts|] == parts;
  }

  lemma {:induction false} AppendAssociates<T>(a: seq<T>, x: T, b: seq<T>)
    ensures a + ([x] + b) == (a + [x]) + b
  {
  }

  /** `batches[i]` are the records page `pages[i]` gives. */
  predicate PagesGave(pages: seq<Page>, batches: seq<seq<Doc>>) {
    |batches| == |pages| && forall i {:trigger KeptDocs(pages[i].rows)} :: 0 <= i < |pages| ==> batches[i] == KeptDocs(pages[i].rows)
  }

  lemma {:induction false} PagesGaveStep(pages: seq<Page>, batches: seq<seq<Doc>>, p: Page, batch: seq<Doc>)
    requires PagesGave(pages, batches) && batch == KeptDocs(p.rows)
    ensures PagesGave(pages + [p], batches + [batch])
  {
  }

  /** Lines 72-86 of `run`: the page's records saved to the collection, then the resume point after the page. */
  method SavePage(c: Collection, file: StateFile, page: int, token: Option<string>, p: Page,
                  ghost keyed: map<Key, Doc>, ghost loose: seq<Doc>, ghost records: seq<Doc>)
    returns (ghost batch: seq<Doc>)
    requires HoldsHarvest(c, keyed, loose, records)
    modifies c, file
    ensures batch == KeptDocs(p.rows)
    ensures HoldsHarvest(c, keyed, loose, records + batch)
    ensures file.content == Saved(Progress(page + 1, token))
  {
    var anns := ExtractAnnouncementsFromTree(p.rows);
    var inserted := SaveAnnouncements(c, anns, true);
    file.Save(Progress(page + 1, token));
    HarvestSaved(keyed, loose, records, anns);
    batch := anns;
  }

  // ---------------------------------------------------------------------------------------
  // The crawl as a function of what the network serves

  /** A crawl as the attempts decide it: why it stopped, the pages processed in order, and the attempts left. */
  datatype PageWalk = PageWalk(stop: Stop, pages: seq<Page>, rest: seq<Attempt>)

  /**
   * The page loop of `run` (lines 55-94) as the attempts decide it: `page` is the next page
   * to fetch and `scraped` the pages processed before it. The limit is checked first; a
   * fetch that gives up or raises ends the loop; a page fetched is processed whatever it
   * holds, and the loop ends after it when it is at or past the announced page count.
   */
  function Walked(attempts: seq<Attempt>, maxPages: Option<int>, page: int, totalPages: Option<int>, scraped: nat): PageWalk
    decreases |attempts|
  {
    if MaxPagesReached(maxPages, scraped) then PageWalk(ReachedMaxPages, [], attempts)
    else
      var n := Tries(CliMaxRetries);
      var rest := Drop(attempts, AttemptsMade(attempts, n));
      match CliOutcome(attempts, n)
      case Exhausted => PageWalk(PageFetchFailed, [], rest)
      case Raised => PageWalk(Crashed, [], rest)
      case Fetched(p) =>
        FetchedConsumes(attempts, n);
        if LastPageReached(totalPages, page) then PageWalk(ReachedLastPage, [p], rest)
        else
          var w := Walked(rest, maxPages, page + 1, totalPages, scraped + 1);
          PageWalk(w.stop, [p] + w.pages, w.rest)
  }

  /**
   * When the CLI crawl stops: never before the limit, and at the limit only by it; after
   * the last page exactly when the last page processed is at or past the page count, and
   * never after an earlier page.
   */
  lemma {:induction false} WalkStops(attempts: seq<Attempt>, maxPages: Option<int>, page: int, totalPages: Option<int>, scraped: nat)
    ensures var w := Walked(attempts, maxPages, page, totalPages, scraped);
      && w.stop != InitialFetchFailed
      && (forall k :: scraped <= k < scraped + |w.pages| ==> !MaxPagesReached(maxPages, k))
      && (w.stop == ReachedMaxPages ==> MaxPagesReached(maxPages, scraped + |w.pages|))
      && (w.stop == PageFetchFailed || w.stop == Crashed ==> !MaxPagesReached(maxPages, scraped + |w.pages|))
      && (forall q :: page <= q < page + |w.pages| - 1 ==> !LastPageReached(totalPages, q))
      && (w.stop == ReachedLastPage <==> |w.pages| > 0 && LastPageReached(totalPages, page + |w.pages| - 1))
    decreases |attempts|
  {
    hide Walked;
    WalkStep(attempts, maxPages, page, totalPages, scraped);
    var n := Tries(CliMaxRetries);
    if !MaxPagesReached(maxPages, scraped) && CliOutcome(attempts, n).Fetched? && !LastPageReached(totalPages, page) {
      FetchedConsumes(attempts, n);
      WalkStops(Drop(attempts, AttemptsMade(attempts, n)), maxPages, page + 1, totalPages, scraped + 1);
    }
  }

  /** The pages served, one per attempt, when every attempt is served. */
  function ServedPages(attempts: seq<Attempt>): seq<Page>
    requires forall j :: 0 <= j < |attempts| ==> attempts[j].Served?
  {
    seq(|attempts|, j requires 0 <= j < |attempts| => attempts[j].page)
  }

  /**
   * On a network that serves every request, the CLI crawl processes the pages in the order
   * they are served, never raises, and fails a fetch only once the attempts are used up.
   */
  lemma {:induction false} WalkOnReliableNetwork(attempts: seq<Attempt>, maxPages: Option<int>, page: int, totalPages: Option<int>, scraped: nat)
    requires forall j :: 0 <= j < |attempts| ==> attempts[j].Served?
    ensures var w := Walked(attempts, maxPages, page, totalPages, scraped);
      && |w.pages| <= |attempts| && w.pages == ServedPages(attempts)[..|w.pages|]
      && w.rest == attempts[|w.pages|..]
      && w.stop != Crashed
      && (w.stop == PageFetchFailed ==> |w.pages| == |attempts|)
    decreases |attempts|
  {
    hide Walked;
    WalkStep(attempts, maxPages, page, totalPages, scraped);
    var n := Tries(CliMaxRetries);
    if !MaxPagesReached(maxPages, scraped) {
      if attempts == [] {
        ExhaustedIffAllRequestErrors(attempts, n);
      } else {
        FirstServedIsFetched(attempts, n, 0);
        var rest := attempts[1..];
        assert Drop(attempts, AttemptsMade(attempts, n)) == rest;
        if !LastPageReached(totalPages, page) {
          WalkOnReliableNetwork(rest, maxPages, page + 1, totalPages, scraped + 1);
          var v := Walked(rest, maxPages, page + 1, totalPages, scraped + 1);
          assert ServedPages(attempts) == [attempts[0].page] + ServedPages(rest);
          assert ServedPages(attempts)[..1 + |v.pages|] == [attempts[0].page] + ServedPages(rest)[..|v.pages|];
        }
      }
    }
  }

  /**
   * Unlike the service, the CLI crawl goes on past a page that gives no announcement:
   * what a page holds never stops the loop.
   */
  lemma {:induction false} WalkIgnoresEmptyPage(attempts: seq<Attempt>, maxPages: Option<int>, page: int, totalPages: Option<int>, scraped: nat)
    requires attempts != [] && attempts[0].Served? && KeptDocs(attempts[0].page.rows) == []
    requires !MaxPagesReached(maxPages, scraped) && !LastPageReached(totalPages, page)
    ensures var w := Walked(attempts[1..], maxPages, page + 1, totalPages, scraped + 1);
      Walked(attempts, maxPages, page, totalPages, scraped) == PageWalk(w.stop, [attempts[0].page] + w.pages, w.rest)
  {
    hide Walked;
    WalkStep(attempts, maxPages, page, totalPages, scraped);
    FirstServedIsFetched(attempts, Tries(CliMaxRetries), 0);
    assert Drop(attempts, 1) == attempts[1..];
  }

  /** One step of `Walked`, case by case. */
  lemma {:induction false} WalkStep(attempts: seq<Attempt>, maxPages: Option<int>, page: int, totalPages: Option<int>, scraped: nat)
    ensures var w := Walked(attempts, maxPages, page, totalPages, scraped);
      var n := Tries(CliMaxRetries);
      var o := CliOutcome(attempts, n);
      var rest := Drop(attempts, AttemptsMade(attempts, n));
      && (MaxPagesReached(maxPages, scraped) ==> w == PageWalk(ReachedMaxPages, [], attempts))
      && (!MaxPagesReached(maxPages, scraped) && o.Exhausted? ==> w == PageWalk(PageFetchFailed, [], rest))
      && (!MaxPagesReached(maxPages, scraped) && o.Raised? ==> w == PageWalk(Crashed, [], rest))
      && (!MaxPagesReached(maxPages, scraped) && o.Fetched? && LastPageReached(totalPages, page) ==>
            w == PageWalk(ReachedLastPage, [o.page], rest))
      && (!MaxPagesReached(maxPages, scraped) && o.Fetched? && !LastPageReached(totalPages, page) ==>
            var v := Walked(rest, maxPages, page + 1, totalPages, scraped + 1);
            w == PageWalk(v.stop, [o.page] + v.pages, v.rest))
  {
  }

  // ---------------------------------------------------------------------------------------
  // The crawl

  /** Before any page, no records are owed and the collection holds what it held. */
  lemma {:induction false} NothingCrawled(c: Collection, held: Option<string>)
    ensures PagesGave([], []) && HoldsHarvest(c, c.keyed, c.loose, Concat([]))
    ensures LatestToken(held, TokensFound([])) == held
  {
  }

  /** How one pass of the page loop ends. */
  datatype PageOutcome = Processed(page: Page, token: Option<string>) | FetchFailed | FetchRaised

  /**
   * Lines 61-86 of `run`: fetch the page with the held token; on failure save the page's
   * own number and stop; otherwise refresh the token, save the page's records and the
   * number of the next page. `pages` and `batches` are the pages processed so far and
   * their records; `held` is the token the crawl started from.
   */
  method CrawlPage(net: Network, file: StateFile, c: Collection, page: int, token: Option<string>,
                   ghost held: Option<string>, ghost keyed: map<Key, Doc>, ghost loose: seq<Doc>,
                   ghost pages: seq<Page>, ghost batches: seq<seq<Doc>>)
    returns (r: PageOutcome, ghost pages': seq<Page>, ghost batches': seq<seq<Doc>>)
    requires token == LatestToken(held, TokensFound(pages))
    requires PagesGave(pages, batches)
    requires HoldsHarvest(c, keyed, loose, Concat(batches))
    modifies net, file, c
    ensures net.attempts == Drop(old(net.attempts), AttemptsMade(old(net.attempts), Tries(CliMaxRetries)))
    ensures r.FetchFailed? <==> CliOutcome(old(net.attempts), Tries(CliMaxRetries)).Exhausted?
    ensures r.FetchRaised? <==> CliOutcome(old(net.attempts), Tries(CliMaxRetries)).Raised?
    ensures r.Processed? ==> CliOutcome(old(net.attempts), Tries(CliMaxRetries)) == Fetched(r.page)
    ensures r.FetchFailed? ==> file.content == Saved(Progress(page, token))
    ensures r.FetchRaised? ==> file.content == old(file.content)
    ensures r.Processed? ==> file.content == Saved(Progress(page + 1, r.token))
    ensures !r.Processed? ==> pages' == pages && batches' == batches
    ensures PagesGave(pages', batches') && HoldsHarvest(c, keyed, loose, Concat(batches'))
    ensures r.Processed? ==> pages' == pages + [r.page] && r.token == LatestToken(held, TokensFound(pages'))
  {
    hide KeptDocs;
    var fetched := FetchPage(net, BaseUrl, page, token, CliMaxRetries);
    if fetched.Exhausted? {
      file.Save(Progress(page, token));
      return FetchFailed, pages, batches;
    }
    if fetched.Raised? {
      return FetchRaised, pages, batches;
    }
    var p := fetched.page;
    var refreshed := Refreshed(token, ExtractPradoState(p));
    var batch := SavePage(c, file, page, refreshed, p, keyed, loose, Concat(batches));
    TokensFoundStep(pages, p);
    LatestTokenStep(held, TokensFound(pages), ExtractPradoState(p));
    ConcatStep(batches, batch);
    PagesGaveStep(pages, batches, p, batch);
    r, pages', batches' := Processed(p, refreshed), pages + [p], batches + [batch];
  }

  /**
   * Lines 55-94 of `run`: the page loop, from `firstPage` on, starting with the token
   * `held` and the page count `totalPages` read from page 1. The stop reason, the pages
   * processed and the attempts left are those `Walked` gives for the network's attempts;
   * `page` is the page the saved record sends the next run to and `token` the token held
   * at the end.
   */
  method Crawl(net: Network, file: StateFile, c: Collection, maxPages: Option<int>, firstPage: int,
              held: Option<string>, totalPages: Option<int>)
    returns (stop: Stop, pagesScraped: nat, page: int, token: Option<string>, ghost pages: seq<Page>, ghost batches: seq<seq<Doc>>)
    modifies net, file, c
    ensures Walked(old(net.attempts), maxPages, firstPage, totalPages, 0) == PageWalk(stop, pages, net.attempts)
    ensures |pages| == pagesScraped && page == firstPage + pagesScraped
    ensures PagesGave(pages, batches) && token == LatestToken(held, TokensFound(pages))
    ensures HoldsHarvest(c, old(c.keyed), old(c.loose), Concat(batches))
    ensures pagesScraped > 0 || stop == PageFetchFailed ==> file.content == Saved(Progress(page, token))
    ensures pagesScraped == 0 && stop != PageFetchFailed ==> file.content == old(file.content)
  {
    hide KeptDocs, Walked, HoldsHarvest, PagesGave, LatestToken, TokensFound, Concat, Progress;
    ghost var keyed0, loose0, start := c.keyed, c.loose, net.attempts;
    NothingCrawled(c, held);
    token := held;
    page := firstPage;
    pagesScraped := 0;
    pages, batches := [], [];
    while true
      invariant |pages| == pagesScraped && page == firstPage + pagesScraped
      invariant var w := Walked(net.attempts, maxPages, page, totalPages, pagesScraped);
        Walked(start, maxPages, firstPage, totalPages, 0) == PageWalk(w.stop, pages + w.pages, w.rest)
      invariant PagesGave(pages, batches)
      invariant token == LatestToken(held, TokensFound(pages))
      invariant HoldsHarvest(c, keyed0, loose0, Concat(batches))
      invariant pagesScraped > 0 ==> file.content == Saved(Progress(page, token))
      invariant pagesScraped == 0 ==> file.content == old(file.content)
      decreases |net.attempts|
    {
      WalkStep(net.attempts, maxPages, page, totalPages, pagesScraped);
      if MaxPagesReached(maxPages, pagesScraped) {
        stop := ReachedMaxPages;
        assert pages + [] == pages;
        break;
      }
      ghost var before := net.attempts;
      var outcome, pages', batches' := CrawlPage(net, file, c, page, token, held, keyed0, loose0, pages, batches);
      if outcome.FetchFailed? {
        stop := PageFetchFailed;
        assert pages + [] == pages;
        break;
      } else if outcome.FetchRaised? {
        stop := Crashed;
        assert pages + [] == pages;
        break;
      }
      FetchedConsumes(before, Tries(CliMaxRetries));
      ghost var w := Walked(net.attempts, maxPages, page + 1, totalPages, pagesScraped + 1);
      AppendAssociates(pages, outcome.page, w.pages);
      token, pages, batches := outcome.token, pages', batches';
      pagesScraped := pagesScraped + 1;
      var last := LastPageReached(totalPages, page);
      // The source leaves the loop before this step on the last page; `page` then
      // names the page the saved record resumes from, as it does on every other exit.
      page := page + 1;
      if last {
        stop := ReachedLastPage;
        break;
      }
    }
  }

  /** A run as the attempts decide it: page 1 as fetched (`None` when that fetch did not succeed), then the crawl. */
  datatype RunWalk = RunWalk(first: Option<Page>, walk: PageWalk)

  /**
   * `run` as the attempts decide it, resuming from `currentPage`: page 1 is fetched first;
   * when that fetch gives up nothing else happens, when it raises the run crashes, and
   * otherwise the crawl starts from `currentPage` with the page count page 1 announces.
   */
  function RunOn(attempts: seq<Attempt>, maxPages: Option<int>, currentPage: int): RunWalk {
    var n := Tries(CliMaxRetries);
    var rest := Drop(attempts, AttemptsMade(attempts, n));
    match CliOutcome(attempts, n)
    case Exhausted => RunWalk(None, PageWalk(InitialFetchFailed, [], rest))
    case Raised => RunWalk(None, PageWalk(Crashed, [], rest))
    case Fetched(p) => RunWalk(Some(p), Walked(rest, maxPages, currentPage, TotalPages(p), 0))
  }

  /**
   * A run ends with `InitialFetchFailed` exactly when every attempt at page 1 meets a
   * request error, and processes no page when page 1 could not be fetched.
   */
  lemma {:induction false} RunOnFirstPage(attempts: seq<Attempt>, maxPages: Option<int>, currentPage: int)
    ensures var r := RunOn(attempts, maxPages, currentPage);
      && (r.walk.stop == InitialFetchFailed <==> forall j :: 0 <= j < Tries(CliMaxRetries) ==> AttemptAt(attempts, j).RequestError?)
      && (r.first.None? ==> r.walk.pages == [] && (r.walk.stop == InitialFetchFailed || r.walk.stop == Crashed))
      && (r.first.Some? <==> CliOutcome(attempts, Tries(CliMaxRetries)).Fetched?)
  {
    ExhaustedIffAllRequestErrors(attempts, Tries(CliMaxRetries));
    var r := RunOn(attempts, maxPages, currentPage);
    if r.first.Some? {
      WalkStops(Drop(attempts, AttemptsMade(attempts, Tries(CliMaxRetries))), maxPages, currentPage, TotalPages(r.first.value), 0);
    }
  }

  /**
   * `run(max_pages, start_page)`: resume from the saved page (or `start_page`), fetch page 1
   * for its token and page count, then crawl. What is fetched and why the run stops are
   * `RunOn` of the network's attempts; the collection then holds the records of the pages
   * processed, and the state file, once a page was processed or a fetch failed, the page
   * after the last one processed with the last token found since page 1.
   */
  method Run(net: Network, file: StateFile, c: Collection, maxPages: Option<int>, startPage: int)
    returns (stop: Stop, pagesScraped: nat, ghost first: Option<Page>, ghost pages: seq<Page>, ghost batches: seq<seq<Doc>>)
    requires PageIsInteger(Loaded(file.content))
    modifies net, file, c
    ensures RunOn(old(net.attempts), maxPages, ResumePage(Loaded(old(file.content)), startPage))
      == RunWalk(first, PageWalk(stop, pages, net.attempts))
    ensures PageIsInteger(Loaded(file.content))
    ensures |pages| == pagesScraped && PagesGave(pages, batches)
    ensures HoldsHarvest(c, old(c.keyed), old(c.loose), Concat(batches))
    ensures first.Some? && (pagesScraped > 0 || stop == PageFetchFailed) ==>
      file.content == Saved(Progress(
        ResumePage(Loaded(old(file.content)), startPage) + pagesScraped,
        LatestToken(ExtractPradoState(first.value), TokensFound(pages))))
    ensures first.None? || (pagesScraped == 0 && stop != PageFetchFailed) ==> file.content == old(file.content)
  {
    hide KeptDocs, TotalPages, ExtractPradoState, TokensFound, LatestToken, Walked, HoldsHarvest, PagesGave, Concat;
    NothingCrawled(c, None);
    var state := file.Load();
    var currentPage := ResumePage(state, startPage);
    // The token read from the state is never used: page 1's token replaces it.
    var initial := FetchPage(net, BaseUrl, 1, None, CliMaxRetries);
    if initial.Exhausted? {
      return InitialFetchFailed, 0, None, [], [];
    }
    if initial.Raised? {
      return Crashed, 0, None, [], [];
    }
    first := Some(initial.page);
    assert currentPage == ResumePage(Loaded(old(file.content)), startPage);
    var held, totalPages := ExtractPradoState(initial.page), TotalPages(initial.page);
    var page, token;
    stop, pagesScraped, page, token, pages, batches := Crawl(net, file, c, maxPages, currentPage, held, totalPages);
  }

  /** `main()`: `int(sys.argv[1])` as `max_pages` when an argument is given and parses, else no limit. */
  function MaxPagesArg(argv: seq<string>): (r: Option<int>)
    ensures |argv| <= 1 ==> r.None?
    ensures |argv| > 1 ==> r == ParseInt(argv[1])
  {
    if |argv| > 1 then ParseInt(argv[1]) else None
  }

  /** A number written in decimal as the first argument is the limit. */
  lemma {:induction false} MaxPagesArgReadsNumber(argv: seq<string>, n: int)
    requires |argv| > 1 && argv[1] == IntToDecimal(n)
    ensures MaxPagesArg(argv) == Some(n)
  {
    IntRoundTrip(n);
  }

  /** Without an argument, or with one holding no digit, the run has no limit. */
  lemma {:induction false} MaxPagesArgWithoutNumber(argv: seq<string>)
    requires |argv| <= 1 || forall i :: 0 <= i < |argv[1]| ==> !IsDigit(argv[1][i])
    ensures MaxPagesArg(argv) == None
  {
    if |argv| > 1 {
      ParseIntRejectsNonNumbers(argv[1]);
    }
  }

  /**
   * `main()`: a run from the saved page (or page 1) with the limit read from the arguments:
   * `Run` with `start_page` 1. Its stop reason and page count are those `RunOn` gives for the
   * network's attempts, and the collection and the state file end as `Run` leaves them.
   */
  method CliMain(net: Network, file: StateFile, c: Collection, argv: seq<string>)
    returns (stop: Stop, pagesScraped: nat, ghost first: Option<Page>, ghost pages: seq<Page>, ghost batches: seq<seq<Doc>>)
    requires PageIsInteger(Loaded(file.content))
    modifies net, file, c
    ensures var r := RunOn(old(net.attempts), MaxPagesArg(argv), ResumePage(Loaded(old(file.content)), 1));
      stop == r.walk.stop && pagesScraped == |r.walk.pages| && net.attempts == r.walk.rest
    ensures RunOn(old(net.attempts), MaxPagesArg(argv), ResumePage(Loaded(old(file.content)), 1))
      == RunWalk(first, PageWalk(stop, pages, net.attempts))
    ensures PageIsInteger(Loaded(file.content))
    ensures |pages| == pagesScraped && PagesGave(pages, batches)
    ensures HoldsHarvest(c, old(c.keyed), old(c.loose), Concat(batches))
    ensures first.Some? && (pagesScraped > 0 || stop == PageFetchFailed) ==>
      file.content == Saved(Progress(
        ResumePage(Loaded(old(file.content)), 1) + pagesScraped,
        LatestToken(ExtractPradoState(first.value), TokensFound(pages))))
    ensures first.None? || (pagesScraped == 0 && stop != PageFetchFailed) ==> file.content == old(file.content)
  {
    stop, pagesScraped, first, pages, batches := Run(net, file, c, MaxPagesArg(argv), 1);
  }
}
