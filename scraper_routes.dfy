/**
 * The admin routes of the web service that drive the crawler
 * (full_backend/app/api/routes/scraper.py): status, start, stop, schedule, test run,
 * configuration read and write, and reset. Authentication (`require_admin`) is not part
 * of this model: every call here is an admin's.
 */
module ScraperRoutes {
  import opened Wrappers
  import opened Models
  import opened Storage
  import opened MongoUtils
  import opened StateFiles
  import opened Fetch
  import opened ScraperServices

  /**
   * What a route answers: a body, an `HTTPException` with its code and detail, or an
   * exception that escapes the handler, which the framework answers with a bare 500.
   */
  datatype Reply<+T> = Ok(body: T) | HttpError(code: int, detail: string) | Unhandled

  // ---------------------------------------------------------------------------------------
  // Configuration kept in the state file

  /** The keys `update_scraper_config` writes. */
  const ConfigKeys := {"max_pages", "start_page", "delay_between_requests", "enabled"}

  /** `state.update({...})` with a config: its four fields, `None` stored as `null`. */
  function StoreConfig(s: State, cfg: ScraperConfig): (r: State)
    ensures ConfigKeys <= r.Keys
    ensures "current_page" in s ==> "current_page" in r && r["current_page"] == s["current_page"]
    ensures SavedToken(r) == SavedToken(s)
  {
    s["max_pages" := if cfg.maxPages.Some? then JInt(cfg.maxPages.value) else JNull]
     ["start_page" := JInt(cfg.startPage)]
     ["delay_between_requests" := JInt(cfg.delayBetweenRequests)]
     ["enabled" := JBool(cfg.enabled)]
  }

  /** `state.get(key, default)` read as an integer; `None` when the stored value is not one. */
  function IntField(s: State, key: string, default: int): Option<int> {
    if key !in s then Some(default)
    else if s[key].JInt? then Some(s[key].i)
    else None
  }

  /** `state.get(key, default)` read as a boolean; `None` when the stored value is not one. */
  function BoolField(s: State, key: string, default: bool): Option<bool> {
    if key !in s then Some(default)
    else if s[key].JBool? then Some(s[key].b)
    else None
  }

  /** `state.get("max_pages")` read as an optional integer; `None` when it is neither. */
  function MaxPagesField(s: State): Option<Option<int>> {
    if "max_pages" !in s || s["max_pages"].JNull? then Some(None)
    else if s["max_pages"].JInt? then Some(Some(s["max_pages"].i))
    else None
  }

  /**
   * The `ScraperConfig` that `get_scraper_config` builds from the state, each missing key
   * at its default; `None` when a stored value does not have its field's type, which
   * makes the model's validation raise.
   */
  function ConfigFromState(s: State): (cfg: Option<ScraperConfig>)
    ensures cfg.Some? <==> MaxPagesField(s).Some? && IntField(s, "start_page", 1).Some?
                           && IntField(s, "delay_between_requests", 2).Some? && BoolField(s, "enabled", true).Some?
    ensures cfg.Some? && "start_page" !in s ==> cfg.value.startPage == 1
    ensures cfg.Some? && "delay_between_requests" !in s ==> cfg.value.delayBetweenRequests == 2
    ensures cfg.Some? && "enabled" !in s ==> cfg.value.enabled
  {
    var maxPages := MaxPagesField(s);
    var startPage := IntField(s, "start_page", 1);
    var delay := IntField(s, "delay_between_requests", 2);
    var enabled := BoolField(s, "enabled", true);
    if maxPages.Some? && startPage.Some? && delay.Some? && enabled.Some? then
      Some(ScraperConfig(maxPages.value, startPage.value, delay.value, enabled.value))
    else None
  }

  /** A stored config is read back as it was written, whatever else the state holds. */
  lemma {:induction false} ConfigRoundTrip(s: State, cfg: ScraperConfig)
    ensures ConfigFromState(StoreConfig(s, cfg)) == Some(cfg)
  {
    var t := StoreConfig(s, cfg);
    assert t["max_pages"] == if cfg.maxPages.Some? then JInt(cfg.maxPages.value) else JNull;
    assert t["start_page"] == JInt(cfg.startPage);
    assert t["delay_between_requests"] == JInt(cfg.delayBetweenRequests);
  }

  /** Storing a config touches its four keys only: the resume point and the schedule survive it. */
  lemma {:induction false} StoreConfigKeepsOtherKeys(s: State, cfg: ScraperConfig)
    ensures StoreConfig(s, cfg).Keys == s.Keys + ConfigKeys
    ensures forall k :: k in s && k !in ConfigKeys ==> StoreConfig(s, cfg)[k] == s[k]
    ensures PageIsInteger(s) ==> PageIsInteger(StoreConfig(s, cfg))
    ensures PageIsInteger(s) ==> forall p :: ResumePage(StoreConfig(s, cfg), p) == ResumePage(s, p)
  {
  }

  /** A state without config keys, the empty one included, gives the declared defaults. */
  lemma {:induction false} ConfigDefaults(s: State)
    requires s.Keys !! ConfigKeys
    ensures ConfigFromState(s) == Some(DefaultScraperConfig)
  {
    assert "max_pages" !in s && "start_page" !in s && "delay_between_requests" !in s && "enabled" !in s;
  }

  /**
   * The checks of `update_scraper_config`, in order: the detail of the first one the
   * config fails, `None` when it passes them all. A `maxPages` of 0 is falsy and passes.
   */
  function ConfigError(cfg: ScraperConfig): (e: Option<string>)
    ensures e.None? <==> (cfg.maxPages.Some? && cfg.maxPages.value != 0 ==> 1 <= cfg.maxPages.value <= 1000)
                         && cfg.startPage >= 1 && 1 <= cfg.delayBetweenRequests <= 60
  {
    if cfg.maxPages.Some? && cfg.maxPages.value != 0 && (cfg.maxPages.value < 1 || cfg.maxPages.value > 1000) then
      Some("Max pages must be between 1 and 1000")
    else if cfg.startPage < 1 then Some("Start page must be at least 1")
    else if cfg.delayBetweenRequests < 1 || cfg.delayBetweenRequests > 60 then
      Some("Delay between requests must be between 1 and 60 seconds")
    else None
  }

  /** The defaults pass the checks, so a fresh state always yields a config that can be written back. */
  lemma {:induction false} DefaultConfigIsValid()
    ensures ConfigError(DefaultScraperConfig).None?
  {
  }

  // ---------------------------------------------------------------------------------------
  // The name `status` inside a handler

  /**
   * What the name `status` refers to where a handler writes `status.HTTP_…`: the module of
   * status codes, or a local variable of the same name. Assigning `status = await
   * scraper_service.get_status()` anywhere in a handler makes the name local to the whole
   * handler: unassigned before that line, the service's `ScraperStatus` after it.
   */
  datatype StatusName = StatusCodes | Unassigned | BoundTo(current: ScraperStatus)

  /**
   * `raise HTTPException(status_code=status.<code>, detail=…)` inside the handlers' `try`:
   * the `HTTPException` is re-raised as it is. When `status` is not the module, reading
   * the code raises first; the `except Exception` handler then reads `status.HTTP_500_…`,
   * which raises again and escapes.
   */
  function Raise<T>(name: StatusName, code: int, detail: string): Reply<T> {
    if name.StatusCodes? then HttpError(code, detail) else Unhandled
  }

  const AlreadyRunning := "Scraper is already running"
  const TestPagesOutOfRange := "Test pages must be between 1 and 5"
  const ResetWhileRunning := "Cannot reset while scraper is running. Stop scraper first."

  /** The guard of `start_scraper` as written: `status` is the service's status when it is read. */
  function StartGuardAsWritten(current: ScraperStatus): (r: Option<Reply<StartBody>>)
    ensures r.Some? <==> current.isRunning
    ensures r.Some? ==> r.value == Unhandled
  {
    if current.isRunning then Some(Raise(BoundTo(current), 409, AlreadyRunning)) else None
  }

  /**
   * The guards of `test_scraper` as written: the page check runs before `status` is
   * assigned, the running check after.
   */
  function TestGuardAsWritten(pages: int, current: ScraperStatus): (r: Option<Reply<ScraperStatus>>)
    ensures r.Some? <==> pages < 1 || pages > 5 || current.isRunning
    ensures r.Some? ==> r.value == Unhandled
  {
    if pages < 1 || pages > 5 then Some(Raise(Unassigned, 400, TestPagesOutOfRange))
    else if current.isRunning then Some(Raise(BoundTo(current), 409, AlreadyRunning))
    else None
  }

  /** The guard of `reset_scraper_state` as written. */
  function ResetGuardAsWritten(current: ScraperStatus): (r: Option<Reply<string>>)
    ensures r.Some? <==> current.isRunning
    ensures r.Some? ==> r.value == Unhandled
  {
    if current.isRunning then Some(Raise(BoundTo(current), 409, ResetWhileRunning)) else None
  }

  /** As written, every refusal of these three routes escapes as a bare 500 instead of its 400 or 409. */
  lemma {:induction false} ShadowedStatusLosesCodes(current: ScraperStatus, pages: int)
    ensures current.isRunning ==> StartGuardAsWritten(current) == Some(Unhandled)
    ensures current.isRunning ==> ResetGuardAsWritten(current) == Some(Unhandled)
    ensures (pages < 1 || pages > 5 || current.isRunning) ==> TestGuardAsWritten(pages, current) == Some(Unhandled)
  {
  }

  /** The guard of `start_scraper` with `status` naming the module of status codes. */
  function StartGuard(current: ScraperStatus): (r: Option<Reply<StartBody>>)
    ensures r.Some? <==> current.isRunning
    ensures r.Some? ==> r.value.HttpError? && r.value.code == 409
  {
    if current.isRunning then Some(Raise(StatusCodes, 409, AlreadyRunning)) else None
  }

  /** The guards of `test_scraper` with `status` naming the module of status codes. */
  function TestGuard(pages: int, current: ScraperStatus): (r: Option<Reply<ScraperStatus>>)
    ensures r.Some? <==> pages < 1 || pages > 5 || current.isRunning
    ensures r.Some? ==> r.value.HttpError? && r.value.code == (if pages < 1 || pages > 5 then 400 else 409)
  {
    if pages < 1 || pages > 5 then Some(Raise(StatusCodes, 400, TestPagesOutOfRange))
    else if current.isRunning then Some(Raise(StatusCodes, 409, AlreadyRunning))
    else None
  }

  /** The guard of `reset_scraper_state` with `status` naming the module of status codes. */
  function ResetGuard(current: ScraperStatus): (r: Option<Reply<string>>)
    ensures r.Some? <==> current.isRunning
    ensures r.Some? ==> r.value.HttpError? && r.value.code == 409
  {
    if current.isRunning then Some(Raise(StatusCodes, 409, ResetWhileRunning)) else None
  }

  /** With `status` naming the module, each route refuses exactly in its documented cases, with the documented code. */
  lemma {:induction false} GuardsAnswerIntendedCodes(current: ScraperStatus, pages: int)
    ensures StartGuard(current) == (if current.isRunning then Some(HttpError(409, AlreadyRunning)) else None)
    ensures ResetGuard(current) == (if current.isRunning then Some(HttpError(409, ResetWhileRunning)) else None)
    ensures (pages < 1 || pages > 5) ==> TestGuard(pages, current) == Some(HttpError(400, TestPagesOutOfRange))
    ensures 1 <= pages <= 5 ==> TestGuard(pages, current) == (if current.isRunning then Some(HttpError(409, AlreadyRunning)) else None)
  {
  }

  /** The two versions agree wherever the guard lets the request through. */
  lemma {:induction false} GuardsAgreeOnAcceptance(current: ScraperStatus, pages: int)
    ensures StartGuard(current).None? <==> StartGuardAsWritten(current).None?
    ensures ResetGuard(current).None? <==> ResetGuardAsWritten(current).None?
    ensures TestGuard(pages, current).None? <==> TestGuardAsWritten(pages, current).None?
  {
  }

  // ---------------------------------------------------------------------------------------
  // The routes

  /** The body of a successful `/start`. */
  datatype StartBody = StartBody(maxPages: Option<int>, startPage: int)

  /** The work `/start` queues: `run_scraper_task(max_pages, config)`. */
  datatype BackgroundTask = BackgroundTask(maxPages: Option<int>, config: ScraperConfig)

  /** `GET /status` */
  method GetScraperStatus(svc: ScraperService) returns (s: ScraperStatus)
    requires svc.Synced()
    ensures svc.Synced()
    modifies svc
    ensures s == svc.status && svc.isRunning == old(svc.isRunning) && svc.delay == old(svc.delay)
    ensures s == old(svc.status).(lastRun := OrElseStamp(LastRunIn(Loaded(svc.stateFile.content)), old(svc.status.lastRun)))
  {
    s := svc.GetStatus();
  }

  /** A stamp read from the state, or the one held. */
  function OrElseStamp(read: Option<DateTime>, held: Option<DateTime>): (r: Option<DateTime>)
    ensures r == held || r == read
    ensures read.Some? ==> r == read
  {
    if read.Some? then read else held
  }

  /**
   * `POST /start`: refused while a run holds the lock; otherwise answers at once and
   * queues a run with the given limit and a config starting at `startPage`.
   */
  method StartScraper(svc: ScraperService, maxPages: Option<int>, startPage: int)
    returns (r: Reply<StartBody>, task: Option<BackgroundTask>)
    requires svc.Synced()
    ensures svc.Synced()
    modifies svc
    ensures svc.isRunning == old(svc.isRunning) && svc.delay == old(svc.delay)
    ensures svc.status == old(svc.status).(lastRun := OrElseStamp(LastRunIn(Loaded(svc.stateFile.content)), old(svc.status.lastRun)))
    ensures old(svc.isRunning) <==> r == HttpError(409, AlreadyRunning)
    ensures !old(svc.isRunning) <==> r == Ok(StartBody(maxPages, startPage))
    ensures task.Some? <==> r.Ok?
    ensures task.Some? ==> task.value == BackgroundTask(maxPages, ScraperConfig(maxPages, startPage, 2, true))
  {
    var current := svc.GetStatus();
    var refused := StartGuard(current);
    if refused.Some? {
      return refused.value, None;
    }
    var config := ScraperConfig(maxPages, startPage, DefaultScraperConfig.delayBetweenRequests, true);
    return Ok(StartBody(maxPages, startPage)), Some(BackgroundTask(maxPages, config));
  }

  /**
   * `run_scraper_task(max_pages, config)`: the queued run, `scrape_pages` with the queued
   * limit and config; a refusal because a run holds the lock is only logged.
   */
  method RunScraperTask(svc: ScraperService, c: Collection, task: BackgroundTask,
                        started: DateTime, env: nat -> PageEnv)
    returns (ghost pages: seq<Page>)
    requires PageIsInteger(Loaded(svc.stateFile.content))
    requires task.config.maxPages == task.maxPages
    requires svc.Synced()
    ensures svc.Synced()
    modifies svc, svc.net, svc.stateFile, c
    ensures PageIsInteger(Loaded(svc.stateFile.content))
    ensures old(svc.isRunning) ==> svc.status == old(svc.status) && svc.stateFile.content == old(svc.stateFile.content)
    ensures !svc.isRunning <==> !old(svc.isRunning)
    ensures HoldsHarvest(c, old(c.keyed), old(c.loose), SavedRecords(pages, env))
  {
    var result;
    ghost var stop, first;
    result, stop, first, pages := svc.ScrapePages(c, task.maxPages, 1, Some(task.config), started, env);
  }

  /** `POST /stop`: reports whether a run was holding the lock, which is released either way. */
  method StopScraper(svc: ScraperService) returns (r: Reply<string>)
    requires svc.Synced()
    ensures svc.Synced()
    modifies svc
    ensures !svc.isRunning && svc.delay == old(svc.delay)
    ensures old(svc.isRunning) <==> r == Ok("Scraper stopped successfully")
    ensures !old(svc.isRunning) <==> r == Ok("Scraper was not running")
  {
    var stopped := svc.StopScraping();
    if stopped {
      return Ok("Scraper stopped successfully");
    }
    return Ok("Scraper was not running");
  }

  /** `POST /schedule`: an interval from 1 to 168 hours is recorded with the next run time `next`; any other is refused. */
  method ScheduleScraper(svc: ScraperService, intervalHours: int, next: DateTime) returns (r: Reply<int>)
    requires svc.Synced()
    ensures svc.Synced()
    modifies svc, svc.stateFile
    ensures (1 <= intervalHours <= 168) <==> r == Ok(intervalHours)
    ensures !(1 <= intervalHours <= 168) <==> r == HttpError(400, "Interval must be between 1 and 168 hours")
    ensures r.Ok? ==> svc.stateFile.content == Saved(Scheduled(Loaded(old(svc.stateFile.content)), next, intervalHours))
                      && svc.status == old(svc.status).(nextRun := Some(next))
    ensures !r.Ok? ==> svc.stateFile.content == old(svc.stateFile.content) && svc.status == old(svc.status)
    ensures svc.isRunning == old(svc.isRunning) && svc.delay == old(svc.delay)
  {
    if intervalHours < 1 || intervalHours > 168 {
      return HttpError(400, "Interval must be between 1 and 168 hours");
    }
    var scheduled := svc.ScheduleScraping(intervalHours, next);
    if scheduled {
      return Ok(intervalHours);
    }
    return HttpError(500, "Could not schedule scraper");
  }

  /**
   * `POST /test`: between 1 and 5 pages, refused while a run holds the lock; otherwise a
   * run of at most `pages` pages from page 1 with a one-second pause, answered with the
   * status it leaves. `first` is page 1 as fetched and `saved` the pages the run saved.
   */
  method TestScraper(svc: ScraperService, c: Collection, pages: int, started: DateTime, env: nat -> PageEnv)
    returns (r: Reply<ScraperStatus>, ghost stop: Option<ServiceStop>, ghost first: Option<Page>, ghost saved: seq<Page>)
    requires PageIsInteger(Loaded(svc.stateFile.content))
    requires svc.Synced()
    ensures svc.Synced()
    modifies svc, svc.net, svc.stateFile, c
    ensures (pages < 1 || pages > 5) ==> r == HttpError(400, TestPagesOutOfRange)
    ensures 1 <= pages <= 5 && old(svc.isRunning) ==> r == HttpError(409, AlreadyRunning)
    ensures 1 <= pages <= 5 && !old(svc.isRunning) ==> r == Ok(svc.status) && !svc.isRunning
    ensures !r.Ok? ==> && svc.stateFile.content == old(svc.stateFile.content) && svc.isRunning == old(svc.isRunning)
                       && svc.delay == old(svc.delay) && svc.net.attempts == old(svc.net.attempts) && saved == []
    ensures r.Ok? ==> svc.delay == 1
    ensures (pages < 1 || pages > 5) ==> svc.status == old(svc.status)
    ensures 1 <= pages <= 5 && old(svc.isRunning) ==>
      svc.status == old(svc.status).(lastRun := OrElseStamp(LastRunIn(Loaded(old(svc.stateFile.content))), old(svc.status.lastRun)))
    ensures r.Ok? && stop.None? ==>
      svc.status == old(svc.status).(lastRun := OrElseStamp(LastRunIn(Loaded(old(svc.stateFile.content))), old(svc.status.lastRun)),
                                     isRunning := false, errors := [InitialFetchFailedMessage])
    ensures r.Ok? && stop.Some? ==>
      svc.status == old(svc.status).(isRunning := false, errors := LoopErrors(stop.value, 1 + |saved|),
                                     lastRun := Some(started), lastScrapedPages := |saved|,
                                     totalAnnouncementsScraped := c.Size() - old(c.Size()))
    ensures HoldsHarvest(c, old(c.keyed), old(c.loose), SavedRecords(saved, env))
    ensures r.Ok? && (first.None? || saved == []) ==> svc.stateFile.content == old(svc.stateFile.content)
    ensures r.Ok? && first.Some? && saved != [] ==>
      svc.stateFile.content == Saved(ServiceProgress(
        1 + |saved|,
        LatestToken(Refreshed(SavedToken(Loaded(old(svc.stateFile.content))), ExtractPradoState(first.value)), TokensFound(saved)),
        env(|saved| - 1).lastRun, TotalPages(first.value)))
    ensures r.Ok? && stop.Some? ==> svc.status.lastScrapedPages <= pages
    ensures r.Ok? && stop == Some(ReachedMaxPages) ==> svc.status.lastScrapedPages == pages
    ensures r.Ok? ==> var s := SweepRun(old(svc.net.attempts), Some(pages), 1);
      && stop == s.stop && first == s.first && saved == s.pages && svc.net.attempts == s.rest
      && (s.stop.Some? ==> svc.status.lastScrapedPages == |s.pages|)
    ensures PageIsInteger(Loaded(svc.stateFile.content))
  {
    hide SweepRun, HoldsHarvest, SavedRecords, LatestToken, TokensFound, ServiceProgress, TotalPages, ExtractPradoState,
         LoopErrors, Refreshed, SavedToken;
    stop, first, saved := None, None, [];
    NothingSwept(c, None, env);
    if pages < 1 || pages > 5 {
      return TestGuard(pages, svc.status).value, None, None, [];
    }
    var current := svc.GetStatus();
    var refused := TestGuard(pages, current);
    if refused.Some? {
      return refused.value, None, None, [];
    }
    var config := ScraperConfig(Some(pages), 1, 1, true);
    ghost var attempts, content := svc.net.attempts, svc.stateFile.content;
    var result;
    result, stop, first, saved := svc.ScrapePages(c, Some(pages), 1, Some(config), started, env);
    SweepRunStops(attempts, RunLimit(Some(pages), Some(config)), RunStartPage(Loaded(content), 1, Some(config)));
    assert MaxPagesReached(Some(pages), pages);
    return Ok(result.value), stop, first, saved;
  }

  /**
   * `GET /config`: the config kept in the state file, each missing key at its default;
   * a stored value of the wrong type is answered with a 500.
   */
  method GetScraperConfig(svc: ScraperService) returns (r: Reply<ScraperConfig>)
    ensures ConfigFromState(Loaded(svc.stateFile.content)).Some? ==> r == Ok(ConfigFromState(Loaded(svc.stateFile.content)).value)
    ensures ConfigFromState(Loaded(svc.stateFile.content)).None? ==> r == HttpError(500, "Could not get scraper configuration")
  {
    var state := svc.stateFile.Load();
    var cfg := ConfigFromState(state);
    if cfg.None? {
      return HttpError(500, "Could not get scraper configuration");
    }
    return Ok(cfg.value);
  }

  /**
   * `PUT /config`: a config that passes the checks is merged into the state file and
   * echoed; otherwise the first failed check is answered with a 400 and nothing changes.
   */
  method UpdateScraperConfig(svc: ScraperService, cfg: ScraperConfig) returns (r: Reply<ScraperConfig>)
    modifies svc.stateFile
    ensures ConfigError(cfg).None? <==> r == Ok(cfg)
    ensures ConfigError(cfg).Some? ==> r == HttpError(400, ConfigError(cfg).value)
    ensures r.Ok? ==> svc.stateFile.content == Saved(StoreConfig(Loaded(old(svc.stateFile.content)), cfg))
    ensures !r.Ok? ==> svc.stateFile.content == old(svc.stateFile.content)
  {
    var invalid := ConfigError(cfg);
    if invalid.Some? {
      return HttpError(400, invalid.value);
    }
    var state := svc.stateFile.Load();
    svc.stateFile.Save(StoreConfig(state, cfg));
    return Ok(cfg);
  }

  /**
   * `DELETE /reset`: refused while a run holds the lock; otherwise the state file is
   * emptied and the status is the initial one.
   */
  method ResetScraperState(svc: ScraperService) returns (r: Reply<string>)
    requires svc.Synced()
    ensures svc.Synced()
    modifies svc, svc.stateFile
    ensures svc.isRunning == old(svc.isRunning) && svc.delay == old(svc.delay)
    ensures old(svc.isRunning) <==> r == HttpError(409, ResetWhileRunning)
    ensures !old(svc.isRunning) <==> r == Ok("Scraper state reset successfully")
    ensures r.Ok? ==> svc.stateFile.content == Saved(map[]) && svc.status == InitialStatus
    ensures !r.Ok? ==> && svc.stateFile.content == old(svc.stateFile.content)
                       && svc.status == old(svc.status).(lastRun := OrElseStamp(LastRunIn(Loaded(old(svc.stateFile.content))), old(svc.status.lastRun)))
  {
    var current := svc.GetStatus();
    var refused := ResetGuard(current);
    if refused.Some? {
      return refused.value;
    }
    svc.stateFile.Save(map[]);
    svc.status := InitialStatus;
    return Ok("Scraper state reset successfully");
  }
}
