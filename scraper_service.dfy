/**
 * The crawler of the web service (full_backend/app/services/scraper.py): one service
 * object holding the run-lock flag and the status the API reports, fetching with its own
 * retry rule, saving each page's records through the announcement service and rewriting
 * its state file after every page.
 */
module ScraperServices {
  import opened Wrappers
  import opened Text
  import opened Models
  import opened Settings
  import opened Extraction
  import opened Storage
  import opened MongoUtils
  import opened AnnouncementService
  import opened StateFiles
  import opened Fetch

  // ---------------------------------------------------------------------------------------
  // fetch_page of the service

  /** The first attempt from `i` below `n` that is served a page, or `n`: the service retries on every exception. */
  function FirstServed(attempts: seq<Attempt>, i: nat, n: nat): (k: nat)
    requires i <= n
    ensures i <= k <= n
    ensures forall j :: i <= j < k ==> !AttemptAt(attempts, j).Served?
    ensures k < n ==> AttemptAt(attempts, k).Served?
    decreases n - i
  {
    if i == n || AttemptAt(attempts, i).Served? then i else FirstServed(attempts, i + 1, n)
  }

  /** What the service's `fetch_page` returns: the first page served within `n` attempts, `None` when none is. */
  function ServiceOutcome(attempts: seq<Attempt>, n: nat): Option<Page> {
    var k := FirstServed(attempts, 0, n);
    if k < n then Some(AttemptAt(attempts, k).page) else None
  }

  /** The attempts the service makes: up to the first one served, all `n` if none is. */
  function ServiceAttempts(attempts: seq<Attempt>, n: nat): nat {
    var k := FirstServed(attempts, 0, n);
    if k < n then k + 1 else n
  }

  /**
   * The sleeps of the service's `fetch_page`: `2 × attempt` after each failed attempt but
   * the last one, then the pause between requests once a page is served.
   */
  function ServiceSleeps(attempts: seq<Attempt>, n: nat, delay: int): seq<int> {
    var k := FirstServed(attempts, 0, n);
    if k < n then Backoff(k) + [delay] else Backoff(if n > 0 then n - 1 else 0)
  }

  /** The service gives up exactly when none of its attempts is served, and then has made all of them. */
  lemma {:induction false} ServiceGivesUpIffNothingServed(attempts: seq<Attempt>, n: nat)
    ensures ServiceOutcome(attempts, n).None? <==> forall j :: 0 <= j < n ==> !AttemptAt(attempts, j).Served?
    ensures ServiceOutcome(attempts, n).None? ==> ServiceAttempts(attempts, n) == n
  {
  }

  /** The first page served within the attempts is the page fetched, whatever errors came before it. */
  lemma {:induction false} ServiceFetchesFirstServed(attempts: seq<Attempt>, n: nat, k: nat)
    requires k < n && AttemptAt(attempts, k).Served?
    requires forall j :: 0 <= j < k ==> !AttemptAt(attempts, j).Served?
    ensures ServiceOutcome(attempts, n) == Some(AttemptAt(attempts, k).page)
    ensures ServiceAttempts(attempts, n) == k + 1
  {
    var s := FirstServed(attempts, 0, n);
    assert !(s < k) && !(k < s);
  }

  /** A fetch that returns a page has used up at least the attempt that served it. */
  lemma {:induction false} ServedConsumes(attempts: seq<Attempt>, n: nat)
    requires ServiceOutcome(attempts, n).Some?
    ensures 0 < ServiceAttempts(attempts, n) <= |attempts|
    ensures |Drop(attempts, ServiceAttempts(attempts, n))| < |attempts|
  {
  }

  /**
   * Where the two fetch loops part: when every attempt meets a request error, fetch.py
   * sleeps after each of them, the last one included, while the service does not sleep
   * after its last attempt.
   */
  lemma {:induction false} NoSleepAfterLastAttempt(attempts: seq<Attempt>, n: nat, delay: int)
    requires n > 0 && forall j :: 0 <= j < n ==> AttemptAt(attempts, j).RequestError?
    ensures ServiceSleeps(attempts, n, delay) == Backoff(n - 1)
    ensures Backoff(Settled(attempts, 0, n)) == Backoff(n - 1) + [2 * n]
  {
    assert Settled(attempts, 0, n) == n;
    assert Backoff(n) == Backoff(n - 1) + [2 * n];
  }

  // ---------------------------------------------------------------------------------------
  // The service's state record

  /**
   * `{"current_page": page, "prado_state": token, "last_run": now.isoformat(),
   * "total_pages": total_pages}`: the record written after a page.
   */
  function ServiceProgress(page: int, token: Option<string>, now: DateTime, totalPages: Option<int>): State {
    RecordState(ServiceRecord(page, token, now, totalPages))
  }

  /** The service record as a value: the page to resume from, the token, the run's time and the page count. */
  datatype ServiceRecord = ServiceRecord(page: int, token: Option<string>, lastRun: DateTime, totalPages: Option<int>)

  /** A service record as the JSON object written to the state file. */
  function RecordState(r: ServiceRecord): State {
    map["current_page" := JInt(r.page), "prado_state" := TokenJson(r.token), "last_run" := JStamp(r.lastRun),
        "total_pages" := if r.totalPages.Some? then JInt(r.totalPages.value) else JNull]
  }

  /** The `prado_state` a state holds, `None` when it holds none. */
  function SavedToken(s: State): Option<string> {
    if "prado_state" in s then TokenOf(s["prado_state"]) else None
  }

  /** The `last_run` a state holds, when it is a timestamp. */
  function LastRunIn(s: State): Option<DateTime> {
    if "last_run" in s && s["last_run"].JStamp? then Some(s["last_run"].at) else None
  }

  /** A record written after a page sends the next run to the page it names, with its token, and dates the run. */
  lemma {:induction false} ServiceProgressResumes(page: int, token: Option<string>, now: DateTime, totalPages: Option<int>, startPage: int)
    ensures PageIsInteger(ServiceProgress(page, token, now, totalPages))
    ensures ResumePage(ServiceProgress(page, token, now, totalPages), startPage) == page
    ensures SavedToken(ServiceProgress(page, token, now, totalPages)) == token
    ensures LastRunIn(ServiceProgress(page, token, now, totalPages)) == Some(now)
  {
    TokenRoundTrip(token);
  }

  /** `x or y` on optional integers: `x` unless it is `None` or `0`. */
  function OrElse(x: Option<int>, y: Option<int>): (r: Option<int>)
    ensures r == x || r == y
    ensures r == x <== x.Some? && x.value != 0
  {
    if x.Some? && x.value != 0 then x else y
  }

  /** `max_pages` once a config is applied: `config.maxPages or max_pages`. */
  function RunLimit(maxPages: Option<int>, config: Option<ScraperConfig>): (r: Option<int>)
    ensures config.None? ==> r == maxPages
    ensures config.Some? && config.value.maxPages.Some? && config.value.maxPages.value != 0 ==> r == config.value.maxPages
    ensures r == maxPages || (config.Some? && r == config.value.maxPages)
  {
    if config.Some? then OrElse(config.value.maxPages, maxPages) else maxPages
  }

  /** The page a run starts from: the saved page (or `start_page`), unless a config names a non-zero start page. */
  function RunStartPage(s: State, startPage: int, config: Option<ScraperConfig>): (r: int)
    requires PageIsInteger(s)
    ensures config.Some? && config.value.startPage != 0 ==> r == config.value.startPage
    ensures (config.None? || config.value.startPage == 0) ==> r == ResumePage(s, startPage)
  {
    if config.Some? && config.value.startPage != 0 then config.value.startPage else ResumePage(s, startPage)
  }

  /** `state.get("schedule…")` after `schedule_scraping`: the state with the next run and the interval added. */
  function Scheduled(s: State, next: DateTime, intervalHours: int): (r: State)
    ensures LastRunIn(r) == LastRunIn(s)
    ensures "next_scheduled_run" in r && r["next_scheduled_run"] == JStamp(next)
  {
    s["next_scheduled_run" := JStamp(next)]["schedule_interval_hours" := JInt(intervalHours)]
  }

  /** Scheduling adds its two keys and keeps every other key of the state, the resume point included. */
  lemma {:induction false} SchedulingKeepsState(s: State, next: DateTime, intervalHours: int)
    ensures var t := Scheduled(s, next, intervalHours);
      && t.Keys == s.Keys + {"next_scheduled_run", "schedule_interval_hours"}
      && (forall k :: k in s && k != "next_scheduled_run" && k != "schedule_interval_hours" ==> t[k] == s[k])
      && t["schedule_interval_hours"] == JInt(intervalHours)
  {
  }

  /** A resume page and token survive scheduling. */
  lemma {:induction false} SchedulingKeepsResumePoint(s: State, next: DateTime, intervalHours: int, startPage: int)
    requires PageIsInteger(s)
    ensures PageIsInteger(Scheduled(s, next, intervalHours))
    ensures ResumePage(Scheduled(s, next, intervalHours), startPage) == ResumePage(s, startPage)
    ensures SavedToken(Scheduled(s, next, intervalHours)) == SavedToken(s)
  {
  }

  /** The error recorded when a page cannot be fetched. */
  function FetchFailedMessage(page: int): string {
    "Failed to fetch page " + IntToDecimal(page)
  }

  /** The error recorded when page 1 cannot be fetched. */
  const InitialFetchFailedMessage := "Scraper error: Failed to fetch initial page"

  /** Why the page loop of `scrape_pages` ended. */
  datatype ServiceStop =
    | ReachedMaxPages   // `max_pages` pages were processed
    | ReachedLastPage   // the page just processed is at or past the announced page count
    | EmptyPage         // a page after the first had no announcement: it is not saved
    | PageFetchFailed   // a page could not be fetched: nothing is saved for it

  /** How one pass of the page loop ends. */
  datatype PageOutcome = PageSaved(page: Page, token: Option<string>, inserted: nat) | PageMissing | PageEmpty

  // ---------------------------------------------------------------------------------------
  // The page loop as a function of what the network serves

  /** A sweep of the page loop as the attempts decide it: why it stopped, the pages saved in order, and the attempts left. */
  datatype Sweep = Sweep(stop: ServiceStop, pages: seq<Page>, rest: seq<Attempt>)

  /**
   * The page loop of `scrape_pages` (lines 156-213) as the attempts decide it: `page` is
   * the next page to fetch and `scraped` the pages saved before it. The limit is checked
   * first; a fetch that gives up ends the loop; a page without announcements ends it once
   * a page was saved; any other page is saved, and the loop ends after it when it is at or
   * past the announced page count.
   */
  function Swept(attempts: seq<Attempt>, maxPages: Option<int>, page: int, totalPages: Option<int>, scraped: nat): Sweep
    decreases |attempts|
  {
    if MaxPagesReached(maxPages, scraped) then Sweep(ReachedMaxPages, [], attempts)
    else
      var n := Tries(ScraperMaxRetries);
      var rest := Drop(attempts, ServiceAttempts(attempts, n));
      match ServiceOutcome(attempts, n)
      case None => Sweep(PageFetchFailed, [], rest)
      case Some(p) =>
        ServedConsumes(attempts, n);
        if KeptDocs(p.rows) == [] && scraped > 0 then Sweep(EmptyPage, [], rest)
        else if LastPageReached(totalPages, page) then Sweep(ReachedLastPage, [p], rest)
        else
          var s := Swept(rest, maxPages, page + 1, totalPages, scraped + 1);
          Sweep(s.stop, [p] + s.pages, s.rest)
  }

  /** One step of `Swept`, case by case. */
  lemma {:induction false} SweepStep(attempts: seq<Attempt>, maxPages: Option<int>, page: int, totalPages: Option<int>, scraped: nat)
    ensures var s := Swept(attempts, maxPages, page, totalPages, scraped);
      var n := Tries(ScraperMaxRetries);
      var o := ServiceOutcome(attempts, n);
      var rest := Drop(attempts, ServiceAttempts(attempts, n));
      && (MaxPagesReached(maxPages, scraped) ==> s == Sweep(ReachedMaxPages, [], attempts))
      && (!MaxPagesReached(maxPages, scraped) && o.None? ==> s == Sweep(PageFetchFailed, [], rest))
      && (!MaxPagesReached(maxPages, scraped) && o.Some? && KeptDocs(o.value.rows) == [] && scraped > 0 ==>
            s == Sweep(EmptyPage, [], rest))
      && ((!MaxPagesReached(maxPages, scraped) && o.Some? && !(KeptDocs(o.value.rows) == [] && scraped > 0)
            && LastPageReached(totalPages, page)) ==> s == Sweep(ReachedLastPage, [o.value], rest))
      && ((!MaxPagesReached(maxPages, scraped) && o.Some? && !(KeptDocs(o.value.rows) == [] && scraped > 0)
            && !LastPageReached(totalPages, page)) ==>
            var v := Swept(rest, maxPages, page + 1, totalPages, scraped + 1);
            s == Sweep(v.stop, [o.value] + v.pages, v.rest))
  {
  }

  /**
   * When the service's loop stops: never before the limit, and at the limit only by it;
   * after the last page exactly when the last page saved is at or past the page count;
   * on an empty page only once a page was saved. Every page saved after the first one of
   * the run holds announcements.
   */
  lemma {:induction false} SweepStops(attempts: seq<Attempt>, maxPages: Option<int>, page: int, totalPages: Option<int>, scraped: nat)
    ensures var s := Swept(attempts, maxPages, page, totalPages, scraped);
      && (forall k :: scraped <= k < scraped + |s.pages| ==> !MaxPagesReached(maxPages, k))
      && (s.stop == ReachedMaxPages ==> MaxPagesReached(maxPages, scraped + |s.pages|))
      && (s.stop == PageFetchFailed || s.stop == EmptyPage ==> !MaxPagesReached(maxPages, scraped + |s.pages|))
      && (forall q :: page <= q < page + |s.pages| - 1 ==> !LastPageReached(totalPages, q))
      && (s.stop == ReachedLastPage <==> |s.pages| > 0 && LastPageReached(totalPages, page + |s.pages| - 1))
      && (s.stop == EmptyPage ==> scraped + |s.pages| > 0)
      && (forall i :: 0 <= i < |s.pages| && scraped + i > 0 ==> KeptDocs(s.pages[i].rows) != [])
    decreases |attempts|
  {
    hide Swept, KeptDocs;
    SweepStep(attempts, maxPages, page, totalPages, scraped);
    var n := Tries(ScraperMaxRetries);
    var o := ServiceOutcome(attempts, n);
    if !MaxPagesReached(maxPages, scraped) && o.Some? && !(KeptDocs(o.value.rows) == [] && scraped > 0)
       && !LastPageReached(totalPages, page) {
      ServedConsumes(attempts, n);
      var rest := Drop(attempts, ServiceAttempts(attempts, n));
      SweepStops(rest, maxPages, page + 1, totalPages, scraped + 1);
      var s := Swept(attempts, maxPages, page, totalPages, scraped);
      var v := Swept(rest, maxPages, page + 1, totalPages, scraped + 1);
      assert forall i :: 1 <= i < |s.pages| ==> s.pages[i] == v.pages[i - 1];
    }
  }

  /**
   * Where the two page loops part: once a page was saved, a page without announcements
   * ends the service's loop and is not saved; the first page of a run is saved even when
   * it is empty.
   */
  lemma {:induction false} SweepStopsOnEmptyPage(attempts: seq<Attempt>, maxPages: Option<int>, page: int, totalPages: Option<int>, scraped: nat)
    requires attempts != [] && attempts[0].Served? && KeptDocs(attempts[0].page.rows) == []
    requires !MaxPagesReached(maxPages, scraped)
    ensures var s := Swept(attempts, maxPages, page, totalPages, scraped);
      && (scraped > 0 ==> s == Sweep(EmptyPage, [], attempts[1..]))
      && (scraped == 0 ==> |s.pages| > 0 && s.pages[0] == attempts[0].page)
  {
    hide Swept, KeptDocs;
    SweepStep(attempts, maxPages, page, totalPages, scraped);
    ServiceFetchesFirstServed(attempts, Tries(ScraperMaxRetries), 0);
    assert Drop(attempts, 1) == attempts[1..];
  }

  /** A run as the attempts decide it: page 1 as fetched, the loop's stop (`None` when page 1 was not fetched), the pages saved, the attempts left. */
  datatype RunSweep = RunSweep(first: Option<Page>, stop: Option<ServiceStop>, pages: seq<Page>, rest: seq<Attempt>)

  /**
   * The `try` block of `scrape_pages` as the attempts decide it, with the limit and the
   * start page already resolved: page 1 is fetched first; when that fetch gives up the run
   * ends there, and otherwise the loop starts from `currentPage` with the page count page 1
   * announces.
   */
  function SweepRun(attempts: seq<Attempt>, maxPages: Option<int>, currentPage: int): RunSweep {
    var n := Tries(ScraperMaxRetries);
    var rest := Drop(attempts, ServiceAttempts(attempts, n));
    match ServiceOutcome(attempts, n)
    case None => RunSweep(None, None, [], rest)
    case Some(p) =>
      var s := Swept(rest, maxPages, currentPage, TotalPages(p), 0);
      RunSweep(Some(p), Some(s.stop), s.pages, s.rest)
  }

  /** `SweepRun` by cases on the fetch of page 1. */
  lemma {:induction false} SweepRunStep(attempts: seq<Attempt>, maxPages: Option<int>, currentPage: int)
    ensures var n := Tries(ScraperMaxRetries);
      var o := ServiceOutcome(attempts, n);
      var rest := Drop(attempts, ServiceAttempts(attempts, n));
      && (o.None? ==> SweepRun(attempts, maxPages, currentPage) == RunSweep(None, None, [], rest))
      && (o.Some? ==> var s := Swept(rest, maxPages, currentPage, TotalPages(o.value), 0);
            SweepRun(attempts, maxPages, currentPage) == RunSweep(Some(o.value), Some(s.stop), s.pages, s.rest))
  {
  }

  /** A run ends before its loop exactly when no attempt at page 1 is served, and then saves no page. */
  lemma {:induction false} SweepRunFirstPage(attempts: seq<Attempt>, maxPages: Option<int>, currentPage: int)
    ensures var r := SweepRun(attempts, maxPages, currentPage);
      && (r.stop.None? <==> forall j :: 0 <= j < Tries(ScraperMaxRetries) ==> !AttemptAt(attempts, j).Served?)
      && (r.stop.None? <==> r.first.None?)
      && (r.first.None? ==> r.pages == [])
      && r.first == ServiceOutcome(attempts, Tries(ScraperMaxRetries))
  {
    ServiceGivesUpIffNothingServed(attempts, Tries(ScraperMaxRetries));
  }

  /** A run saves no page once its limit is reached, and stops for the limit only when the pages saved reach it. */
  lemma {:induction false} SweepRunStops(attempts: seq<Attempt>, maxPages: Option<int>, currentPage: int)
    ensures var r := SweepRun(attempts, maxPages, currentPage);
      && (forall k :: 0 <= k < |r.pages| ==> !MaxPagesReached(maxPages, k))
      && (r.stop == Some(ReachedMaxPages) ==> MaxPagesReached(maxPages, |r.pages|))
  {
    var n := Tries(ScraperMaxRetries);
    var o := ServiceOutcome(attempts, n);
    if o.Some? {
      SweepStops(Drop(attempts, ServiceAttempts(attempts, n)), maxPages, currentPage, TotalPages(o.value), 0);
    }
  }

  /**
   * What the clock and the storage give while a run saves one page: the `utcnow()` that
   * stamps the page's records, the `utcnow()` written as `last_run` after the page, and
   * whether the page's `bulk_upsert_announcements` call meets a storage error (which it
   * logs and answers with `0`). A run takes one of these per page it saves, `env(i)` for
   * its `i`-th page from 0, so pages of one run may differ in both.
   */
  datatype PageEnv = PageEnv(stamp: DateTime, lastRun: DateTime, storageFails: bool)

  /** The records one saved page adds to the collection: its kept records, stamped, unless its write failed. */
  function PageRecords(p: Page, e: PageEnv): (r: seq<Doc>)
    ensures e.storageFails ==> r == []
    ensures !e.storageFails ==> |r| == |KeptDocs(p.rows)|
  {
    if e.storageFails then [] else StampedRecords(KeptDocs(p.rows), e.stamp)
  }

  /** The records a run writes for the pages it saves, page after page, the `i`-th page under `env(i)`. */
  function SavedRecords(pages: seq<Page>, env: nat -> PageEnv): seq<Doc> {
    if pages == [] then [] else SavedRecords(pages[..|pages| - 1], env) + PageRecords(pages[|pages| - 1], env(|pages| - 1))
  }

  lemma {:induction false} SavedRecordsStep(pages: seq<Page>, p: Page, env: nat -> PageEnv)
    ensures SavedRecords(pages + [p], env) == SavedRecords(pages, env) + PageRecords(p, env(|pages|))
  {
    assert (pages + [p])[..|pages|] == pages;
  }

  /** A run whose every write fails owes the collection nothing, whatever pages it saves. */
  lemma {:induction false} FailedWritesSaveNothing(pages: seq<Page>, env: nat -> PageEnv)
    requires forall i: nat :: i < |pages| ==> env(i).storageFails
    ensures SavedRecords(pages, env) == []
    decreases |pages|
  {
    if pages != [] {
      FailedWritesSaveNothing(pages[..|pages| - 1], env);
    }
  }

  /** Before any page, nothing is owed to the collection and the held token is the starting one. */
  lemma {:induction false} NothingSwept(c: Collection, held: Option<string>, env: nat -> PageEnv)
    ensures HoldsHarvest(c, c.keyed, c.loose, SavedRecords([], env))
    ensures LatestToken(held, TokensFound([])) == held
  {
  }

  /**
   * Lines 184-192 of `scrape_pages`: the page's records handed to
   * `bulk_upsert_announcements` as a fresh list, stamped with `e.stamp` and written unless
   * `e.storageFails`; the collection then holds the page's records after the earlier ones.
   */
  method SavePageRecords(c: Collection, p: Page, anns: seq<Doc>, e: PageEnv,
                         ghost keyed: map<Key, Doc>, ghost loose: seq<Doc>, ghost records: seq<Doc>)
    returns (inserted: nat)
    requires anns == KeptDocs(p.rows)
    requires HoldsHarvest(c, keyed, loose, records)
    modifies c
    ensures HoldsHarvest(c, keyed, loose, records + PageRecords(p, e))
    ensures e.storageFails ==> c.keyed == old(c.keyed) && c.loose == old(c.loose) && inserted == 0
    ensures c.Size() == old(c.Size()) + inserted
  {
    hide KeptDocs, StampedRecords, Stamped;
    var batch := new Doc[|anns|](i => if 0 <= i < |anns| then anns[i] else map[]);
    assert batch[..] == anns;
    inserted := BulkUpsertAnnouncements(c, batch, e.stamp, e.storageFails);
    if e.storageFails {
      assert records + PageRecords(p, e) == records;
    } else {
      HarvestSaved(keyed, loose, records, batch[..]);
    }
  }

  /** The errors a run that reached its loop adds: one for a page it could not fetch. */
  function LoopErrors(stop: ServiceStop, page: int): seq<string> {
    if stop == PageFetchFailed then [FetchFailedMessage(page)] else []
  }

  lemma {:induction false} AppendAssociates<T>(a: seq<T>, x: T, b: seq<T>)
    ensures a + ([x] + b) == (a + [x]) + b
  {
  }

  // ---------------------------------------------------------------------------------------
  // ScraperService

  class ScraperService {
    /** `is_running`, the run lock. */
    var isRunning: bool
    /** `current_status`. */
    var status: ScraperStatus
    /** `settings.SCRAPER_DELAY_BETWEEN_REQUESTS`, which a run with a config overwrites. */
    var delay: int
    /** The session's view of the network. */
    const net: Network
    /** `scraper_state.json`. */
    const stateFile: StateFile

    /** The lock and the flag the status reports move together; every method keeps them so. */
    predicate Synced()
      reads this
    {
      isRunning == status.isRunning
    }

    constructor (net: Network, stateFile: StateFile)
      ensures !isRunning && status == InitialStatus && delay == ScraperDelayBetweenRequests
      ensures this.net == net && this.stateFile == stateFile
    {
      isRunning := false;
      status := InitialStatus;
      delay := ScraperDelayBetweenRequests;
      this.net := net;
      this.stateFile := stateFile;
    }

    /**
     * `fetch_page(url, page_num, prado_state)`: up to `SCRAPER_MAX_RETRIES` attempts of
     * the same request.
     */
    method FetchPage(url: string, pageNum: int, token: Option<string>) returns (r: Option<Page>)
      modifies net
      ensures r == ServiceOutcome(old(net.attempts), Tries(ScraperMaxRetries))
      ensures net.sent == old(net.sent) + Repeat(RequestFor(url, pageNum, token), ServiceAttempts(old(net.attempts), Tries(ScraperMaxRetries)))
      ensures net.sleeps == old(net.sleeps) + ServiceSleeps(old(net.attempts), Tries(ScraperMaxRetries), delay)
      ensures net.attempts == Drop(old(net.attempts), ServiceAttempts(old(net.attempts), Tries(ScraperMaxRetries)))
      ensures r.Some? ==> |net.attempts| < |old(net.attempts)|
    {
      r := FetchWithRetries(url, pageNum, token, Tries(ScraperMaxRetries));
    }

    /**
     * The retry loop of `fetch_page`, for `n` attempts. Any exception is retried, with a
     * sleep of `2 × attempt` seconds when another attempt follows; a served page is
     * followed by the pause between requests.
     */
    method FetchWithRetries(url: string, pageNum: int, token: Option<string>, n: nat) returns (r: Option<Page>)
      modifies net
      ensures r == ServiceOutcome(old(net.attempts), n)
      ensures net.sent == old(net.sent) + Repeat(RequestFor(url, pageNum, token), ServiceAttempts(old(net.attempts), n))
      ensures net.sleeps == old(net.sleeps) + ServiceSleeps(old(net.attempts), n, delay)
      ensures net.attempts == Drop(old(net.attempts), ServiceAttempts(old(net.attempts), n))
      ensures r.Some? ==> |net.attempts| < |old(net.attempts)|
    {
      var request := RequestFor(url, pageNum, token);
      ghost var start, sent0, sleeps0 := net.attempts, net.sent, net.sleeps;
      for attempt := 1 to n + 1
        invariant forall j :: 0 <= j < attempt - 1 ==> !AttemptAt(start, j).Served?
        invariant net.sent == sent0 + Repeat(request, attempt - 1)
        invariant net.sleeps == sleeps0 + Backoff(if attempt <= n || n == 0 then attempt - 1 else n - 1)
        invariant net.attempts == Drop(start, attempt - 1)
      {
        DropStep(start, attempt - 1);
        RepeatStep(request, attempt - 1);
        var outcome := net.Send(request);
        if outcome.Served? {
          ServiceFetchesFirstServed(start, n, attempt - 1);
          net.Sleep(delay);
          return Some(outcome.page);
        }
        if attempt < n {
          net.Sleep(2 * attempt);
          BackoffStep(attempt - 1);
        }
      }
      ServiceGivesUpIffNothingServed(start, n);
      return None;
    }

    /**
     * Lines 163-202 of `scrape_pages`: fetch the page with the held token; refresh the
     * token; stop on an empty page once a page was saved; otherwise save the page's
     * records through the announcement service and the resume point after the page.
     * `e` is what the clock and the storage give for this page. `keyed`, `loose` and
     * `records` describe the collection before the page: `records` were written onto
     * `keyed` and `loose`.
     */
    method ScrapePage(c: Collection, page: int, token: Option<string>, pagesScraped: nat,
                      totalPages: Option<int>, e: PageEnv,
                      ghost keyed: map<Key, Doc>, ghost loose: seq<Doc>, ghost records: seq<Doc>)
      returns (r: PageOutcome)
      requires HoldsHarvest(c, keyed, loose, records)
      modifies net, stateFile, c
      ensures net.attempts == Drop(old(net.attempts), ServiceAttempts(old(net.attempts), Tries(ScraperMaxRetries)))
      ensures r.PageMissing? <==> ServiceOutcome(old(net.attempts), Tries(ScraperMaxRetries)).None?
      ensures r.PageEmpty? <==> && ServiceOutcome(old(net.attempts), Tries(ScraperMaxRetries)).Some?
                                && KeptDocs(ServiceOutcome(old(net.attempts), Tries(ScraperMaxRetries)).value.rows) == []
                                && pagesScraped > 0
      ensures r.PageSaved? ==> ServiceOutcome(old(net.attempts), Tries(ScraperMaxRetries)) == Some(r.page)
      ensures !r.PageSaved? ==> && stateFile.content == old(stateFile.content)
                                && c.keyed == old(c.keyed) && c.loose == old(c.loose) && c.Size() == old(c.Size())
      ensures r.PageSaved? ==> && r.token == Refreshed(token, ExtractPradoState(r.page))
                               && stateFile.content == Saved(ServiceProgress(page + 1, r.token, e.lastRun, totalPages))
                               && c.Size() == old(c.Size()) + r.inserted
      ensures e.storageFails ==> c.keyed == old(c.keyed) && c.loose == old(c.loose) && c.Size() == old(c.Size())
      ensures r.PageSaved? ==> HoldsHarvest(c, keyed, loose, records + PageRecords(r.page, e))
      ensures !r.PageSaved? ==> HoldsHarvest(c, keyed, loose, records)
    {
      hide KeptDocs, ServiceProgress, Refreshed, ExtractPradoState, StampedRecords, Stamped, LoopErrors, SavedRecords, Swept, SweepRun,
           HoldsHarvest, PageRecords;
      var fetched := FetchPage(BaseUrl, page, token);
      if fetched.None? {
        return PageMissing;
      }
      var p := fetched.value;
      var refreshed := Refreshed(token, ExtractPradoState(p));
      var anns := ExtractAnnouncementsFromTree(p.rows);
      if anns == [] && pagesScraped > 0 {
        return PageEmpty;
      }
      var inserted := SavePageRecords(c, p, anns, e, keyed, loose, records);
      stateFile.Save(ServiceProgress(page + 1, refreshed, e.lastRun, totalPages));
      return PageSaved(p, refreshed, inserted);
    }

    /**
     * Lines 152-213 of `scrape_pages`: the page loop from `firstPage`, starting with the
     * token `held` and the page count `totalPages`. The stop reason, the pages saved and
     * the attempts left are those `Swept` gives for the network's attempts; `page` is the
     * page the last saved record sends the next run to, `token` the token held at the end
     * and `total` the documents the saves created. The `i`-th page saved (from 0) is
     * stamped, dated and written as `env(i)` says.
     */
    method ScrapeLoop(c: Collection, maxPages: Option<int>, firstPage: int, held: Option<string>,
                      totalPages: Option<int>, env: nat -> PageEnv)
      returns (stop: ServiceStop, pagesScraped: nat, page: int, token: Option<string>, total: int, ghost pages: seq<Page>)
      modifies net, stateFile, c
      ensures Swept(old(net.attempts), maxPages, firstPage, totalPages, 0) == Sweep(stop, pages, net.attempts)
      ensures |pages| == pagesScraped && page == firstPage + pagesScraped
      ensures token == LatestToken(held, TokensFound(pages))
      ensures pagesScraped > 0 ==> stateFile.content == Saved(ServiceProgress(page, token, env(pagesScraped - 1).lastRun, totalPages))
      ensures pagesScraped == 0 ==> stateFile.content == old(stateFile.content)
      ensures HoldsHarvest(c, old(c.keyed), old(c.loose), SavedRecords(pages, env))
      ensures c.Size() == old(c.Size()) + total
    {
      hide KeptDocs, Swept, HoldsHarvest, LatestToken, TokensFound, SavedRecords, ServiceProgress, PageRecords;
      ghost var keyed0, loose0, start := c.keyed, c.loose, net.attempts;
      NothingSwept(c, held, env);
      token := held;
      page := firstPage;
      pagesScraped := 0;
      total := 0;
      pages := [];
      while true
        invariant |pages| == pagesScraped && page == firstPage + pagesScraped
        invariant var s := Swept(net.attempts, maxPages, page, totalPages, pagesScraped);
          Swept(start, maxPages, firstPage, totalPages, 0) == Sweep(s.stop, pages + s.pages, s.rest)
        invariant token == LatestToken(held, TokensFound(pages))
        invariant pagesScraped > 0 ==> stateFile.content == Saved(ServiceProgress(page, token, env(pagesScraped - 1).lastRun, totalPages))
        invariant pagesScraped == 0 ==> stateFile.content == old(stateFile.content)
        invariant HoldsHarvest(c, keyed0, loose0, SavedRecords(pages, env))
        invariant c.Size() == old(c.Size()) + total
        decreases |net.attempts|
      {
        SweepStep(net.attempts, maxPages, page, totalPages, pagesScraped);
        if MaxPagesReached(maxPages, pagesScraped) {
          stop := ReachedMaxPages;
          assert pages + [] == pages;
          break;
        }
        ghost var before := net.attempts;
        var outcome := ScrapePage(c, page, token, pagesScraped, totalPages, env(pagesScraped),
                                  keyed0, loose0, SavedRecords(pages, env));
        if outcome.PageMissing? {
          stop := PageFetchFailed;
          assert pages + [] == pages;
          break;
        } else if outcome.PageEmpty? {
          stop := EmptyPage;
          assert pages + [] == pages;
          break;
        }
        ServedConsumes(before, Tries(ScraperMaxRetries));
        ghost var v := Swept(net.attempts, maxPages, page + 1, totalPages, pagesScraped + 1);
        AppendAssociates(pages, outcome.page, v.pages);
        TokensFoundStep(pages, outcome.page);
        LatestTokenStep(held, TokensFound(pages), ExtractPradoState(outcome.page));
        SavedRecordsStep(pages, outcome.page, env);
        token, pages := outcome.token, pages + [outcome.page];
        total := total + outcome.inserted;
        pagesScraped := pagesScraped + 1;
        var last := LastPageReached(totalPages, page);
        // The source leaves the loop before this step on the last page; `page` then
        // names the page the saved record resumes from, as it does on every other exit.
        page := page + 1;
        if last {
          stop := ReachedLastPage;
          break;
        }
      }
    }

    /**
     * `scrape_pages(max_pages, start_page, config)`: refuse while running; otherwise take
     * the lock, clear the errors, run, and release the lock whatever happened. `started`
     * is the `utcnow()` read as the run starts, and `env(i)` the clock readings and the
     * storage outcome of the `i`-th page saved. What is fetched and why the run stops are
     * `SweepRun` of the network's attempts.
     */
    method ScrapePages(c: Collection, maxPages: Option<int>, startPage: int, config: Option<ScraperConfig>,
                       started: DateTime, env: nat -> PageEnv)
      returns (r: Result<ScraperStatus, string>, ghost stop: Option<ServiceStop>, ghost first: Option<Page>, ghost pages: seq<Page>)
      requires PageIsInteger(Loaded(stateFile.content))
      modifies this, net, stateFile, c
      ensures PageIsInteger(Loaded(stateFile.content))
      ensures old(isRunning) ==> && r == Failure("Scraper is already running") && isRunning && status == old(status)
                                 && delay == old(delay) && net.attempts == old(net.attempts) && pages == []
                                 && stateFile.content == old(stateFile.content)
      ensures !old(isRunning) ==> && r == Success(status) && !isRunning && !status.isRunning
                                  && SweepRun(old(net.attempts), RunLimit(maxPages, config),
                                              RunStartPage(Loaded(old(stateFile.content)), startPage, config))
                                     == RunSweep(first, stop, pages, net.attempts)
                                  && delay == (if config.Some? then config.value.delayBetweenRequests else old(delay))
      ensures !old(isRunning) && stop.None? ==> status == old(status).(isRunning := false, errors := [InitialFetchFailedMessage])
      ensures !old(isRunning) && stop.Some? ==>
        status == old(status).(isRunning := false,
                               errors := LoopErrors(stop.value, RunStartPage(Loaded(old(stateFile.content)), startPage, config) + |pages|),
                               lastRun := Some(started), lastScrapedPages := |pages|,
                               totalAnnouncementsScraped := c.Size() - old(c.Size()))
      ensures first.None? || pages == [] ==> stateFile.content == old(stateFile.content)
      ensures first.Some? && pages != [] ==>
        stateFile.content == Saved(ServiceProgress(
          RunStartPage(Loaded(old(stateFile.content)), startPage, config) + |pages|,
          LatestToken(Refreshed(SavedToken(Loaded(old(stateFile.content))), ExtractPradoState(first.value)), TokensFound(pages)),
          env(|pages| - 1).lastRun, TotalPages(first.value)))
      ensures HoldsHarvest(c, old(c.keyed), old(c.loose), SavedRecords(pages, env))
    {
      hide SweepRun, HoldsHarvest, SavedRecords, LatestToken, TokensFound, ServiceProgress, TotalPages,
           ExtractPradoState, RunStartPage, RunLimit, LoopErrors, Refreshed, SavedToken;
      if isRunning {
        NothingSwept(c, None, env);
        return Failure("Scraper is already running"), None, None, [];
      }
      isRunning := true;
      status := status.(isRunning := true, errors := []);
      stop, first, pages := RunPages(c, maxPages, startPage, config, started, env);
      isRunning := false;
      status := status.(isRunning := false);
      r := Success(status);
    }

    /**
     * The `try` block of `scrape_pages`: resume from the saved page (or `start_page`, or
     * the config's start page), fetch page 1 for a fresh token and the page count, crawl,
     * and record the totals; `stop` is `None` when page 1 could not be fetched.
     */
    method RunPages(c: Collection, maxPages: Option<int>, startPage: int, config: Option<ScraperConfig>,
                    started: DateTime, env: nat -> PageEnv)
      returns (ghost stop: Option<ServiceStop>, ghost first: Option<Page>, ghost pages: seq<Page>)
      requires PageIsInteger(Loaded(stateFile.content))
      modifies this, net, stateFile, c
      ensures SweepRun(old(net.attempts), RunLimit(maxPages, config), RunStartPage(Loaded(old(stateFile.content)), startPage, config))
        == RunSweep(first, stop, pages, net.attempts)
      ensures isRunning == old(isRunning)
      ensures delay == if config.Some? then config.value.delayBetweenRequests else old(delay)
      ensures PageIsInteger(Loaded(stateFile.content))
      ensures stop.None? ==> status == old(status).(errors := old(status.errors) + [InitialFetchFailedMessage])
      ensures stop.Some? ==>
        status == old(status).(errors := old(status.errors) + LoopErrors(stop.value, RunStartPage(Loaded(old(stateFile.content)), startPage, config) + |pages|),
                               lastRun := Some(started), lastScrapedPages := |pages|,
                               totalAnnouncementsScraped := c.Size() - old(c.Size()))
      ensures first.None? || pages == [] ==> stateFile.content == old(stateFile.content)
      ensures first.Some? && pages != [] ==>
        stateFile.content == Saved(ServiceProgress(
          RunStartPage(Loaded(old(stateFile.content)), startPage, config) + |pages|,
          LatestToken(Refreshed(SavedToken(Loaded(old(stateFile.content))), ExtractPradoState(first.value)), TokensFound(pages)),
          env(|pages| - 1).lastRun, TotalPages(first.value)))
      ensures HoldsHarvest(c, old(c.keyed), old(c.loose), SavedRecords(pages, env))
    {
      hide *;
      SweepRunStep(net.attempts, RunLimit(maxPages, config), RunStartPage(Loaded(stateFile.content), startPage, config));
      NothingSwept(c, None, env);
      var state := stateFile.Load();
      var loaded := SavedToken(state);
      var limit := RunLimit(maxPages, config);
      var currentPage := RunStartPage(state, startPage, config);
      if config.Some? {
        delay := config.value.delayBetweenRequests;
      }
      var initial := FetchPage(BaseUrl, 1, None);
      if initial.None? {
        status := status.(errors := status.errors + [InitialFetchFailedMessage]);
        return None, None, [];
      }
      var held := Refreshed(loaded, ExtractPradoState(initial.value));
      var totalPages := TotalPages(initial.value);
      var s, pagesScraped, page, token, total;
      s, pagesScraped, page, token, total, pages := ScrapeLoop(c, limit, currentPage, held, totalPages, env);
      if pagesScraped > 0 {
        ServiceProgressResumes(page, token, env(pagesScraped - 1).lastRun, totalPages, startPage);
        LoadAfterSave(ServiceProgress(page, token, env(pagesScraped - 1).lastRun, totalPages));
      }
      status := status.(errors := status.errors + LoopErrors(s, page), lastRun := Some(started),
                        lastScrapedPages := pagesScraped, totalAnnouncementsScraped := total);
      stop, first := Some(s), Some(initial.value);
    }

    /** `get_status()`: the status, its `lastRun` refreshed from the state file when that holds a timestamp. */
    method GetStatus() returns (s: ScraperStatus)
      modifies this
      ensures LastRunIn(Loaded(stateFile.content)).Some? ==> status == old(status).(lastRun := LastRunIn(Loaded(stateFile.content)))
      ensures LastRunIn(Loaded(stateFile.content)).None? ==> status == old(status)
      ensures s == status && isRunning == old(isRunning) && delay == old(delay)
    {
      var state := stateFile.Load();
      var stamp := LastRunIn(state);
      if stamp.Some? {
        status := status.(lastRun := stamp);
      }
      s := status;
    }

    /** `stop_scraping()`: clears both running flags and reports `True` exactly when a run held the lock. */
    method StopScraping() returns (stopped: bool)
      modifies this
      ensures stopped == old(isRunning)
      ensures !isRunning && delay == old(delay)
      ensures stopped ==> status == old(status).(isRunning := false)
      ensures !stopped ==> status == old(status)
    {
      if isRunning {
        isRunning := false;
        status := status.(isRunning := false);
        return true;
      }
      return false;
    }

    /**
     * `schedule_scraping(interval_hours)`: records the next run in the status and, with the
     * interval, in the state file. `next` stands for `utcnow() + interval_hours`.
     */
    method ScheduleScraping(intervalHours: int, next: DateTime) returns (scheduled: bool)
      modifies this, stateFile
      ensures scheduled
      ensures status == old(status).(nextRun := Some(next))
      ensures stateFile.content == Saved(Scheduled(Loaded(old(stateFile.content)), next, intervalHours))
      ensures isRunning == old(isRunning) && delay == old(delay)
    {
      status := status.(nextRun := Some(next));
      var state := stateFile.Load();
      stateFile.Save(Scheduled(state, next, intervalHours));
      return true;
    }
  }
}
