# A verified model of the scraper-PMMP crawl-and-ingest pipeline

scraper-PMMP collects the calls for tenders published on the Moroccan public
procurement portal (marchespublics.gov.ma). A crawler walks the portal's paginated
advanced-search results, which are driven by the PRADO PHP framework: page 1 is a plain
`GET`, and every later page is a postback that carries the page-state token of the page
before it. It turns each row of the results table into an eleven-field announcement
record and merges the records into a MongoDB collection. After every page it saves a
resume point (`current_page`, `prado_state`) in a JSON state file.

The crawler exists twice:
- a command-line tool (`main.py` with `fetch.py`, `extraction.py`, `mongodb_utils.py`,
  `config.py`);
- a service inside a FastAPI back end (`ScraperService`, the announcement service, the
  admin routes that start, stop, schedule, test, configure and reset it, and the
  pydantic models).

This project models both in Dafny.

| module (file) | models |
|---|---|
| `Wrappers` (wrappers.dfy) | `Option` and `Result` |
| `Text` (text.dfy) | the Python string operations the pipeline uses: `strip`, `split`, `" ".join(s.split())`, `lower`, `in`, `startswith`, `int()` and `str()` on integers |
| `Models` (models.dfy) | `AnnouncementBase` and its dictionary form, `AnnouncementUpdate`, the enums, `ScraperStatus` and `ScraperConfig` with their defaults |
| `DateParsing` (dates.dfy) | `parse_date`: the regular expression, the first match, and `strptime`'s calendar checks |
| `Links` (links.dfy) | `normalize_popup_link`, the attachment filter and the choice of the consultation link |
| `Extraction` (extraction.dfy) | `extract_announcement` after node selection, the defaults loop, the row filter of `extract_announcements_from_tree`, `uniq_preserve` |
| `Settings` (settings.dfy) | `config.py`, the back end's scraper settings and `assemble_cors_origins` |
| `Storage` (storage.dfy) | the announcements collection: documents keyed by identity, plus the documents inserted without a key |
| `MongoUtils` (mongo_utils.dfy) | `save_announcements` |
| `StateFiles` (state_file.dfy) | the JSON state file, `load_state`/`save_state`, the resume point and the token refresh rule |
| `Fetch` (fetch.dfy) | `extract_prado_state`, the request of a page, the network as a class, the retry loop of `fetch.py` |
| `AnnouncementService` (announcement_service.dfy) | `bulk_upsert_announcements`, `update_announcement`, the query of `get_announcements` |
| `ScraperServices` (scraper_service.dfy) | `ScraperService` as a class: the retry loop, `scrape_pages` with its lock and status, `get_status`, `stop_scraping`, `schedule_scraping` |
| `CliRunner` (cli_runner.dfy) | `run` and `main` of `main.py` |
| `ScraperRoutes` (scraper_routes.dfy) | the admin routes of `api/routes/scraper.py` |

Modelling choices:
- **HTML.** An HTML row is the strings the XPath expressions select from it (`Row`). The
  extractor's string logic after selection is modelled exactly. A row whose extraction
  raises is `Unreadable`.
- **Network.** The network is a `Network` object that holds what each attempt will meet:
  a served page, a `RequestException` or another exception. It records the requests sent
  and the sleeps taken.
- **State file.** The state file is a `StateFile` object whose content is missing, broken
  or a saved JSON object.
- **Collection.** The collection maps each identity key (the consultation link, or the
  reference with the publication date) to its document. The documents inserted without a
  key are kept in insertion order.
- **Clocks and storage outcomes.** `datetime.utcnow()` values are parameters. A run of
  the service takes a `PageEnv` for each page it saves: the reading that stamps the page's
  records, the reading written as `last_run` after it, and whether its write fails.
- **In-place updates.** The source updates several things in place; the model keeps them
  as classes and arrays:
  - the service's lock and status;
  - the state file;
  - the collection;
  - the records that `bulk_upsert_announcements` stamps in place.

The main results:
- **Both crawl loops.** `CliRunner.Run` and `ScraperServices.ScraperService.ScrapePages`
  are proved against specification functions of what the network serves (`CliRunner.RunOn`
  and `ScraperServices.SweepRun`):
  - The stop reason, the pages processed, in order, and the attempts left are those the
    specification function gives for the network's attempts.
  - Neither loop stops before its limit or before the announced last page; the service
    also stops on a page without announcements once a page was saved, and the command-line
    tool does not.
  - After a run, the state file sends the next run to exactly the page after the last
    processed one, with the last non-empty token found.
  - The collection holds exactly the upserts and inserts of the processed pages' records;
    in the service, of the pages whose write succeeded, each stamped with its own reading.
- **Ingestion.** Re-ingesting a batch is idempotent on keyed documents, and the count
  returned is the number of documents created.
- **Parsers.** `parse_date` reads back every date written as `DD/MM/YYYY HH:MM`.
- **Status codes.** The route guards lose their HTTP status codes as written (see
  Findings).

## Model

| member | source | states |
|---|---|---|
| Models.FromDocAsDoc | full_backend/app/models/announcement.py:32-43 | a record written as a dictionary with the eleven `AnnouncementBase` fields reads back as the same record |
| Models.AsDocFromDoc | full_backend/app/models/announcement.py:32-43 | a dictionary that reads as a record agrees with that record's dictionary on every field |
| Models.AsDoc | full_backend/app/models/announcement.py:32-43 | the dictionary of a record has exactly the eleven field names as keys |
| Models.DaysInMonth | full_backend/app/models/announcement.py:42-43 | the days `datetime` allows in a month: 28 to 31, 29 in February exactly in leap years |
| Models.ParseProcedureType | full_backend/app/models/announcement.py:24-29 | `ProcedureType(s)` succeeds exactly on the five codes and gives the member with that value |
| Models.ProcedureTypeRoundTrip | full_backend/app/models/announcement.py:24-29 | every procedure type is read back from its value |
| Models.ParseUserRole | full_backend/app/models/announcement.py:125-128 | `UserRole(s)` succeeds exactly on admin, user and viewer |
| Models.UserRoleRoundTrip | full_backend/app/models/announcement.py:125-128 | every role is read back from its value |
| DateParsing.DateAt | extraction.py:28 | a date match found at a position is well formed (1-2, 1-2, 4 digits) and occurs there |
| DateParsing.DateAtComplete | extraction.py:28 | every well-formed `D/M/YYYY` text is matched where it occurs |
| DateParsing.TimeAfter | extraction.py:28 | an optional time group found after a date follows blanks and is well formed |
| DateParsing.TimeAfterComplete | extraction.py:28 | blanks followed by a well-formed `H:MM` are always read as that time |
| DateParsing.ParseDate | extraction.py:23-42 | a date returned is a valid calendar date and time |
| DateParsing.ParseStripped | extraction.py:26-42 | the search and conversion on the stripped text give only valid dates |
| DateParsing.ParseDateWithoutDate | extraction.py:24-30 | a text in which the pattern matches nowhere (the empty text included) gives `None` |
| DateParsing.ParseDateAtStart | extraction.py:27-42 | a text beginning with a date is read from that first date and the time right after it |
| DateParsing.FindDateAtStart | extraction.py:28 | the search stops at the first position when a date starts there |
| DateParsing.FindDate | extraction.py:28 | the leftmost position where the date pattern matches, with its match; none when it matches nowhere |
| DateParsing.DateValue | extraction.py:33-40 | the day, month and year of the date group, with the time group's hour and minute or midnight |
| DateParsing.ParseStrippedAtStart | extraction.py:27-42 | the first match at position 0 decides the result |
| DateParsing.ParseDateOnly | extraction.py:33-42 | `D/M/YYYY` alone gives midnight of that day when the day exists, `None` otherwise |
| DateParsing.ParseDateAndTime | extraction.py:31-42 | `D/M/YYYY H:MM` gives that minute when date and time are valid, `None` when either is not |
| DateParsing.ParseDateDropsDateWithBadTime | extraction.py:31-42 | a valid date followed by an impossible time gives `None`: the date alone is not kept |
| DateParsing.ParseFormattedDate | extraction.py:23-42 | every valid date and time written `DD/MM/YYYY HH:MM` is read back exactly |
| DateParsing.PaddedDate | extraction.py:28 | a date written with leading zeros is well formed and stands for that day |
| DateParsing.ParseDateRejectsMonth13 | extraction.py:38-42 | `31/13/2024` gives `None` |
| DateParsing.ParseDateLeapDay | extraction.py:38-42 | `29/02/2024` gives that day at midnight |
| DateParsing.ParseDateNoLeapDay | extraction.py:38-42 | `29/02/2023` gives `None` |
| Links.PopUpAt | extraction.py:51 | a `popUp('…')` match reads a non-empty argument without quotes |
| Links.PopUpAtComplete | extraction.py:51 | a well-formed call is read with exactly its quoted argument |
| Links.PopUpTarget | extraction.py:51-62 | a `popUp` argument becomes an absolute URL under the site that ends with the argument |
| Links.PopUpTargetCases | extraction.py:51-62 | the four cases: `/…` gets the site prefixed, `index.php…` the site and `/`, `?…` the site and `/index.php`, anything else the site and `/index.php?` |
| Links.PlainTarget | extraction.py:63-67 | a plain link is kept or completed under the site |
| Links.PlainTargetCases | extraction.py:63-67 | `index.php…` gets the site and `/`, `?…` the site and `/index.php`, anything else is kept |
| Links.NormalizePopupLink | extraction.py:44-67 | an empty link gives `N/A`; a link starting with `http` is returned stripped; any other result is under the site |
| Links.NormalizeLeadingPopUp | extraction.py:44-62 | a link that starts with a well-formed `popUp('…')` call resolves to that call's target |
| Links.NormalizeFoundPopUp | extraction.py:49-62 | a stripped, non-absolute link holding a `popUp` call resolves to the first call's target |
| Links.AbsoluteAttachment | extraction.py:203-208 | an attachment link becomes absolute and ends with the link; `http` links are unchanged |
| Links.AbsoluteAttachmentCases | extraction.py:203-208 | root-relative links get the site prefixed, `http` links are kept, any other gets the site and `/` |
| Links.Attachments | extraction.py:199-208 | at most one attachment per link, each absolute |
| Links.AttachmentsAppend | extraction.py:201-208 | the attachments of a row are gathered link by link, in document order, duplicates kept |
| Links.AttachmentsOfOne | extraction.py:202-208 | one link contributes itself, completed, exactly when it mentions `.pdf`, `download` or `pieces` in any case |
| Links.AttachmentsNone | extraction.py:202 | links that name no file contribute nothing |
| Links.IsAttachmentLink | extraction.py:202 | an empty link is never an attachment; a non-empty one naming `.pdf` in any case is |
| Links.FirstContaining | extraction.py:213-219 | the first link containing a substring, `None` exactly when no link contains it |
| Links.ConsultationLink | extraction.py:210-220 | the place cell's first `popUp` link wins; otherwise the row's first `refConsultation` link; the chosen link normalized; `N/A` without either |
| Extraction.CodeAt | extraction.py:102 | a code match is 2-4 capitals standing between word boundaries |
| Extraction.CodeAtComplete | extraction.py:102 | every standalone code is matched where it stands |
| Extraction.FindCode | extraction.py:102-104 | a code found is 2 to 4 capitals |
| Extraction.FindCodeSound | extraction.py:102-104 | the code found stands alone and no standalone code starts earlier |
| Extraction.FindCodeLeftmost | extraction.py:102-104 | the leftmost standalone code is the one found |
| Extraction.FindCodeNone | extraction.py:102-104 | without a standalone code nothing is found |
| Extraction.BubbleWord | extraction.py:94-98 | the bubble's first word is non-empty and has no blank |
| Extraction.Procedure | extraction.py:91-104 | `procedure` is a non-empty word; `N/A` without the reference cell |
| Extraction.ProcedureFromBubble | extraction.py:94-98 | a bubble starting with a word other than `N/A` gives that word |
| Extraction.ProcedureFromCode | extraction.py:99-104 | without a bubble word the leftmost standalone code of the cell text is taken |
| Extraction.ProcedureUnknown | extraction.py:92-104 | without a bubble word or a code, `procedure` is `N/A` |
| Extraction.Category | extraction.py:106-111 | `categorie` is stripped; `N/A` without the cell or the panel |
| Extraction.PublicationDate | extraction.py:113-117 | `datePublication` is a valid date, and only with the reference cell |
| Extraction.Reference | extraction.py:119-124 | `reference` is the first `span.ref` text stripped; `N/A` without one |
| Extraction.LabelEnd | extraction.py:133 | a label match ends inside the text, before a non-blank character or at the end |
| Extraction.RemoveLabel | extraction.py:133 | removing the anchored label leaves a suffix of the text |
| Extraction.Unlabelled | extraction.py:131-135 | what is left of a panel is non-empty and stripped, or nothing |
| Extraction.LabelledField | extraction.py:126-164 | `objet` and `acheteurPublic` are non-empty and stripped; `N/A` without panel and label |
| Extraction.Object | extraction.py:126-145 | `objet` is non-empty and stripped |
| Extraction.Buyer | extraction.py:147-164 | `acheteurPublic` is non-empty and stripped |
| Extraction.ObjectLabelRemoved | extraction.py:129-135 | a panel reading `Objet : text` gives the text with its blanks collapsed |
| Extraction.UnlabelledTextKept | extraction.py:129-135 | a panel without the label is kept whole, only its blanks collapsed |
| Extraction.Lots | extraction.py:166-172 | `lots` is the first span text stripped, or `-` when it is missing or blank |
| Extraction.NonBlank | extraction.py:180 | the stripped non-blank texts, each non-empty and stripped |
| Extraction.NonBlankEmpty | extraction.py:180-183 | nothing is left exactly when every text is blank |
| Extraction.KeptLines | extraction.py:188 | the kept lines are non-empty, stripped and never start with `...` |
| Extraction.Place | extraction.py:174-190 | `lieuExecution` is non-empty and stripped; `N/A` without the cell or the panel |
| Extraction.PlacePrefersDirectTexts | extraction.py:180-183 | direct text nodes win: they are joined with `", "` and the rest of the panel does not matter |
| Extraction.PlaceOfSingleLine | extraction.py:184-190 | a panel without direct text whose text is one kept line reads as that line |
| Extraction.Deadline | extraction.py:192-196 | `dateLimite` is a valid date, and only with the deadline cell |
| Extraction.Consultation | extraction.py:210-220 | `lienDeConsultation` is never empty |
| Extraction.ChosenLinkNotBlank | extraction.py:210-220 | a chosen link contains `popUp` or `refConsultation`, so it never normalizes to nothing |
| Extraction.ExtractRecord | extraction.py:78-240 | the record of a row: every field at a well-formed value, the defaults of each missing cell, valid dates, absolute attachments |
| Extraction.EmptyRowDefaults | extraction.py:222-238 | a row with none of the four cells and no links gives exactly the record defaults |
| Extraction.ExtractorDefaultsAreModelDefaults | extraction.py:222-234 | the extractor's defaults are the API model's defaults, key for key |
| Extraction.ExtractorDefaultsDistinct | extraction.py:222-234 | the defaults dictionary names each key once |
| Extraction.FillDefaults | extraction.py:235-237 | the defaults loop gives each missing or `None` key its default and keeps every other entry |
| Extraction.DefaultsKeepRecord | extraction.py:235-237 | on a record's dictionary the defaults loop changes nothing |
| Extraction.FilledKeepsDoc | extraction.py:235-237 | filling a complete dictionary whose `None`s have `None` defaults changes nothing |
| Extraction.RecordNullsHaveNullDefaults | extraction.py:222-234 | only the two dates can be `None`, and their defaults are `None` |
| Extraction.FilledInOrder | extraction.py:90-220 | the dictionary filled field by field is the record's dictionary |
| Extraction.CollectAttachments | extraction.py:199-208 | the attachments loop appends exactly the attachments of the row's links, in order |
| Extraction.ExtractAnnouncement | extraction.py:78-240 | `extract_announcement` returns the dictionary of the row's record, all eleven keys present |
| Extraction.RowResult | extraction.py:250-261 | a row adds at most one dictionary |
| Extraction.KeptDocs | extraction.py:242-262 | the kept dictionaries are no more than the rows |
| Extraction.KeptDocsAppend | extraction.py:249-261 | extracting two stretches of rows one after the other concatenates their results |
| Extraction.KeptDocsConcat | extraction.py:249-261 | the result is the row results concatenated in row order |
| Extraction.KeptDocsAreKeptRows | extraction.py:249-261 | every dictionary returned is that of a kept row, and every kept row's dictionary is returned |
| Extraction.KeepsOnDoc | extraction.py:252-257 | a row is kept exactly when its `reference` or `objet` is non-empty and not `N/A`, or a `refCons` input has a value |
| Extraction.Keeps | extraction.py:252-257 | a row with a `refCons` value is always kept; a row dropped has neither a usable `reference` nor a usable `objet` |
| Extraction.ExtractAnnouncementsFromTree | extraction.py:242-262 | the loop returns the kept rows' dictionaries in order, skipping rows that raise |
| Extraction.FirstIndex | extraction.py:69-76 | the first occurrence of an element |
| Extraction.UniqElements | extraction.py:69-76 | `uniq_preserve` keeps every element once and adds nothing |
| Extraction.UniqOrder | extraction.py:69-76 | elements come out in the order of their first occurrences |
| Extraction.FirstIndexUnique | extraction.py:72-75 | an occurrence with no earlier one is the first occurrence |
| Extraction.UniqPreserve | extraction.py:69-76 | the seen-set loop returns the distinct elements in first-occurrence order |
| Settings.AssembleCorsOrigins | full_backend/app/core/config.py:35-41 | a list and a string starting with `[` are kept; any other type is refused |
| Settings.CorsOriginsSplit | full_backend/app/core/config.py:37-38 | a comma-separated string gives one stripped origin per piece, as many as commas plus one, in order |
| Settings.CorsOriginsRejoin | full_backend/app/core/config.py:37-38 | origins without blanks around the commas come back exactly |
| Storage.KeyOf | mongodb_utils.py:31-39 | the consultation link when usable; otherwise the reference with the publication date when the reference is usable; no key exactly when neither is usable |
| Storage.KeyOfReadsKeyFields | mongodb_utils.py:31-39 | the query of a key holds the record's own field values |
| Storage.CreatedDocumentKeepsKey | mongodb_utils.py:42 | a document created by an upsert answers to the record's key again |
| Storage.ApplyUpsertsKeys | mongodb_utils.py:48-50 | after a batch, exactly the keys that were there or that the batch names have a document |
| Storage.CreatedCountsNewDocuments | mongodb_utils.py:49-50 | the upserted count is the number of documents the batch added |
| Storage.CreatedIsNewKeys | mongodb_utils.py:49-50 | the upserted count is the number of distinct new keys of the batch |
| Storage.Upsert | mongodb_utils.py:42 | one upsert: the key gains a document carrying the fields set; every other document is unchanged |
| Storage.ApplyUpserts | mongodb_utils.py:48-50 | a batch removes no document and leaves the documents of keys it does not name unchanged |
| Storage.Created | mongodb_utils.py:49-50 | a batch creates at most one document per upsert |
| Storage.KnownKeysCreateNothing | full_backend/app/services/announcement.py:184-190 | a batch whose keys all have documents creates nothing |
| Storage.ReingestCreatesNothing | full_backend/app/services/announcement.py:184-190 | ingesting the same keyed batch twice creates nothing the second time and keeps the document count |
| Storage.ApplyUpsertsValue | full_backend/app/services/announcement.py:184-190 | each document is its former self, or its query, with the batch's fields set on it, later updates winning |
| Storage.ReingestIsIdempotent | full_backend/app/services/announcement.py:184-190 | re-ingesting a keyed batch leaves every document as the first ingestion left it |
| Storage.UntouchedKeysKept | full_backend/app/services/announcement.py:184-190 | documents whose key the batch does not name are unchanged |
| Storage.ApplyUpsertsAppend | mongodb_utils.py:48-50 | two batches applied in turn are the two batches applied as one |
| Storage.Collection.BulkWrite | mongodb_utils.py:48-50 | `bulk_write` applies the upserts in order and reports the documents created |
| Storage.Collection.InsertMany | mongodb_utils.py:51-53 | `insert_many` stores every document as a new one, one id per document |
| MongoUtils.OpFor | mongodb_utils.py:30-46 | a record becomes an upsert of its whole self exactly when it has a key, otherwise a plain insert |
| MongoUtils.OpsFor | mongodb_utils.py:29-46 | one operation per record, in order |
| MongoUtils.PartitionComplete | mongodb_utils.py:44-46 | every operation lands in exactly one of the two lists and nothing else does |
| MongoUtils.RecordsPartitioned | mongodb_utils.py:44-46 | keyed and keyless records together are the whole batch |
| MongoUtils.BulkOps | mongodb_utils.py:45 | at most one upsert per operation; none from plain inserts only |
| MongoUtils.PlainInserts | mongodb_utils.py:46 | at most one insert per operation; none from upserts only |
| MongoUtils.KeyedRecords | mongodb_utils.py:31-45 | at most one upsert per record; none when no record has a key |
| MongoUtils.KeylessRecords | mongodb_utils.py:35-46 | at most one insert per record; none when every record has a key |
| MongoUtils.NewDocuments | mongodb_utils.py:47-54 | the count is at least the keyless records and at most the whole batch |
| MongoUtils.PartitionAppend | mongodb_utils.py:44-46 | splitting the operations of two batches is concatenating their splits |
| MongoUtils.RecordsAppend | mongodb_utils.py:44-46 | splitting the records of two batches is concatenating their splits |
| MongoUtils.ResaveCountsOnlyKeyless | mongodb_utils.py:47-54 | saving the same batch again counts only its keyless records |
| MongoUtils.SaveAnnouncements | mongodb_utils.py:21-54 | 0 for an empty list; the keyed records upserted, the keyless ones appended, the count the documents created; `upsert` has no effect |
| StateFiles.Loaded | main.py:16-23 | a missing or broken file loads as `{}` |
| StateFiles.StateFile.Load | main.py:16-23 | `load_state` returns what the file holds, `{}` when it holds nothing readable |
| StateFiles.StateFile.Save | main.py:25-26 | `save_state` overwrites the file with the object |
| StateFiles.LoadAfterSave | main.py:16-26 | a save is read back as written |
| StateFiles.LoadWithoutState | main.py:16-23 | a missing or broken file has no `current_page` |
| StateFiles.TokenOf | main.py:35 | a stored token is read exactly when it is a string |
| StateFiles.TokenRoundTrip | main.py:25-26 | a stored token, `None` included, is read back |
| StateFiles.ProgressResumes | main.py:34 | a saved record sends the next run to its page with its token, whatever start page that run is given |
| StateFiles.ResumePage | main.py:34 | the saved `current_page` when the state has one, else the start page given |
| StateFiles.FreshStateStartsAtStartPage | main.py:33-34 | without a saved page a run starts from its start page |
| StateFiles.Refreshed | main.py:68-70 | a token found on a page replaces the held one unless it is missing or empty |
| StateFiles.LatestTokenWithoutFinds | main.py:68-70 | while no page carries a non-empty token the starting one is kept |
| StateFiles.LatestTokenIsLastFound | main.py:68-70 | the token held is the last non-empty one found |
| StateFiles.LatestTokenStep | main.py:68-70 | one more page refreshes the held token with that page's token |
| Fetch.FirstValueSound | fetch.py:13-20 | an input value is read exactly when an input has the name, and it is the first such input's value |
| Fetch.FirstValueOfFirst | fetch.py:13-20 | the value of the first input with the name is read, whatever follows |
| Fetch.PradoStateFound | fetch.py:11-22 | a token is found exactly when the page has an input of either name |
| Fetch.PradoStatePrefersCurrentName | fetch.py:11-22 | `PRADO_PAGESTATE` wins over `PRADO_PAGE_STATE` |
| Fetch.PradoStateFallsBack | fetch.py:11-22 | without `PRADO_PAGESTATE` the older name is read |
| Fetch.ExtractPradoState | fetch.py:11-22 | the `PRADO_PAGESTATE` value when the page has one; `None` exactly when neither name has a value |
| Fetch.TotalPagesReadsNumber | main.py:46-53 | a page announcing `n` pages in decimal gives `n` |
| Fetch.TotalPages | main.py:46-53 | the first `totalPages` input read as an integer; `None` when there is none or it is not a number |
| Fetch.RequestFor | fetch.py:30-41 | page 1 is a `GET`, every other page a `POST`, always to the given URL |
| Fetch.PostbackCarriesPageAndToken | fetch.py:34-41 | a postback sends exactly four fields, with the token or `""` and the page number in decimal |
| Fetch.PostbackFieldsDistinct | config.py:9-14 | the four postback fields have four different names |
| Fetch.Drop | fetch.py:42-48 | the attempts left after some were made |
| Fetch.Network.Send | fetch.py:30-43 | sending a request records it and consumes the next attempt's outcome |
| Fetch.Network.Sleep | fetch.py:44-48 | a sleep is recorded and changes nothing else |
| Fetch.Settled | fetch.py:42-50 | the first attempt that meets no request error, or the number of attempts |
| Fetch.Backoff | fetch.py:46-48 | the sleeps after failed attempts: `2 × attempt` each |
| Fetch.ExhaustedIffAllRequestErrors | fetch.py:42-50 | a fetch gives up exactly when every attempt meets a request error |
| Fetch.FirstServedIsFetched | fetch.py:42-50 | the first page served before any other exception is the page fetched, after that many attempts |
| Fetch.BackoffTotal | fetch.py:46-48 | after `k` failed attempts the loop has slept `k (k + 1)` seconds |
| Fetch.FetchPage | fetch.py:24-50 | the outcome, the requests sent (the same request, once per attempt made), the sleeps (`2 × attempt` after every request error, the last included) and the attempts consumed |
| Fetch.FetchedConsumes | fetch.py:24-50 | a fetch that returns a page has used at least one attempt, so the attempts left are fewer |
| Fetch.TokensFound | main.py:68-70 | one token per page |
| Fetch.TokensFoundStep | main.py:68-70 | one more page adds its own token |
| Fetch.TokensFoundAt | main.py:68-70 | each token found is the one its page carries |
| AnnouncementService.Stamped | full_backend/app/services/announcement.py:174-182 | every record gets `updatedAt`; a keyless one, or one without `createdAt`, gets `createdAt`; nothing else changes |
| AnnouncementService.StampedRecords | full_backend/app/services/announcement.py:174-182 | the batch after the stamping loop: each record stamped, in order |
| AnnouncementService.StampingKeepsKey | full_backend/app/services/announcement.py:164-182 | stamping keeps a record's identity key |
| AnnouncementService.BulkUpsertAnnouncements | full_backend/app/services/announcement.py:153-210 | 0 with no write for an empty batch; every record stamped in place; keyed ones upserted and keyless ones inserted; the count the documents created; 0 and no change when storage fails |
| AnnouncementService.StampRecords | full_backend/app/services/announcement.py:162-189 | every record of the batch stamped in place, in order, and one write operation per record, keyed by its identity |
| AnnouncementService.WriteOperations | full_backend/app/services/announcement.py:192-205 | the upserts applied to the keyed documents, the other records appended, the count the documents created plus the records inserted |
| AnnouncementService.SplitOperations | full_backend/app/services/announcement.py:192-194 | the two lists are the batch's keyed and keyless records, and what writing them creates is the batch's count of new documents |
| AnnouncementService.UpdateFields | full_backend/app/services/announcement.py:121 | the update dictionary holds exactly the fields given, with their values |
| AnnouncementService.UpdateFieldsKeepsGivenValues | full_backend/app/services/announcement.py:121 | a field is in the dictionary exactly when it was given, with the value given |
| AnnouncementService.UpdateFieldsEmpty | full_backend/app/services/announcement.py:121-123 | the dictionary is empty exactly when no field was given |
| AnnouncementService.IsObjectId | full_backend/app/models/announcement.py:14-17 | an id is accepted exactly when it is 24 hexadecimal digits |
| AnnouncementService.UpdateAnnouncement | full_backend/app/services/announcement.py:116-138 | `None` and no write for an empty update, a malformed id or an unknown id; otherwise the fields and `updatedAt` set and the document returned |
| AnnouncementService.UpdateKeepsOtherFields | full_backend/app/services/announcement.py:125-130 | an update keeps every field it does not name |
| AnnouncementService.AddRegex | full_backend/app/services/announcement.py:69-79 | a text filter adds its case-insensitive regex exactly when it is given, and touches no other key |
| AnnouncementService.AddRange | full_backend/app/services/announcement.py:81-95 | a date range is added exactly when a bound is given, with `$gte`/`$lte` only for the bounds given |
| AnnouncementService.BuildQuery | full_backend/app/services/announcement.py:66-98 | the query holds one condition per filter given and nothing else; no filters give `{}` |
| ScraperServices.FirstServed | full_backend/app/services/scraper.py:62-83 | the first attempt that is served a page, every exception before it retried |
| ScraperServices.ServiceGivesUpIffNothingServed | full_backend/app/services/scraper.py:62-83 | the service gives up exactly when no attempt is served, having made all of them |
| ScraperServices.ServiceFetchesFirstServed | full_backend/app/services/scraper.py:62-83 | the first page served is the page fetched, after that many attempts |
| ScraperServices.NoSleepAfterLastAttempt | full_backend/app/services/scraper.py:77-80 | when every attempt fails the service sleeps `2 × attempt` except after the last, while fetch.py also sleeps after the last |
| ScraperServices.ServiceProgressResumes | full_backend/app/services/scraper.py:195-200 | the record written after a page resumes the next run at its page with its token, and dates the run |
| ScraperServices.OrElse | full_backend/app/services/scraper.py:128-132 | `x or y` on optional integers: `x` unless it is `None` or 0 |
| ScraperServices.RunLimit | full_backend/app/services/scraper.py:128-129 | the config's non-zero limit wins; without a config, the limit given |
| ScraperServices.RunStartPage | full_backend/app/services/scraper.py:124-130 | the config's non-zero start page wins; otherwise the saved page, or the start page given |
| ScraperServices.Scheduled | full_backend/app/services/scraper.py:263-267 | the state with the next run recorded, its `last_run` kept |
| ScraperServices.SchedulingKeepsState | full_backend/app/services/scraper.py:255-274 | scheduling adds its two keys and keeps every other key |
| ScraperServices.SchedulingKeepsResumePoint | full_backend/app/services/scraper.py:255-274 | the resume page and token survive scheduling |
| ScraperServices.ScraperService.constructor | full_backend/app/services/scraper.py:18-29 | a new service is not running, has the initial status and the configured delay |
| ScraperServices.ScraperService.FetchPage | full_backend/app/services/scraper.py:42-83 | `fetch_page` with `SCRAPER_MAX_RETRIES` attempts |
| ScraperServices.ScraperService.FetchWithRetries | full_backend/app/services/scraper.py:62-83 | the outcome, the requests sent, the sleeps (`2 × attempt` between attempts, the delay after a served page) and the attempts consumed |
| ScraperServices.ScraperService.ScrapePage | full_backend/app/services/scraper.py:158-202 | nothing saved exactly when no attempt is served, or the page served keeps no record after the first page; otherwise the page served, its records stamped with the page's reading and added to the collection unless its write fails, the token refreshed and the record of the next page written with the page's `last_run` |
| ScraperServices.ScraperService.ScrapeLoop | full_backend/app/services/scraper.py:152-213 | the stop reason, the pages saved and the attempts left are `Swept` of the network's attempts; the token after them, the last record written with the last page's `last_run`, the collection holding the stamped records of the pages whose write succeeded, the documents created |
| ScraperServices.SweepStops | full_backend/app/services/scraper.py:152-213 | the loop never stops before its limit or before the last page; it stops on an empty page only once a page was saved; every page saved after a run's first holds announcements |
| ScraperServices.SweepStopsOnEmptyPage | full_backend/app/services/scraper.py:163-170 | once a page was saved, an empty page ends the loop unsaved; the first page of a run is saved even when empty |
| ScraperServices.SweepRunFirstPage | full_backend/app/services/scraper.py:136-150 | a run ends before its loop exactly when no attempt at page 1 is served, and then saves no page |
| ScraperServices.SweepRunStops | full_backend/app/services/scraper.py:152-158 | a run saves no page once its limit is reached, and stops for the limit only when the pages saved reach it |
| ScraperServices.ServedConsumes | full_backend/app/services/scraper.py:62-83 | a fetch that returns a page has used at least one attempt, so the attempts left are fewer |
| ScraperServices.SavedRecordsStep | full_backend/app/services/scraper.py:184-192 | one more saved page adds its own records, under its own clock reading and write outcome, after the earlier ones |
| ScraperServices.SavePageRecords | full_backend/app/services/scraper.py:184-192 | the page's records stamped with the page's reading and written unless its write fails; the collection then holds them after the earlier records, and the count is what the write created |
| ScraperServices.PageRecords | full_backend/app/services/announcement.py:162-210 | a page whose write fails adds nothing; otherwise one stamped record per record kept |
| ScraperServices.FailedWritesSaveNothing | full_backend/app/services/announcement.py:208-210 | a run whose every write fails leaves the collection as it was, whatever pages it saves |
| ScraperServices.ScraperService.RunPages | full_backend/app/services/scraper.py:120-218 | page 1, the stop reason and the pages saved are `SweepRun` of the network's attempts from the resume page (config first); the delay taken from the config; the page-1 error or the totals and the error of a failed page; the record after the last page with the latest token and that page's `last_run`; the collection holding the stamped records of the pages whose write succeeded |
| ScraperServices.ScraperService.ScrapePages | full_backend/app/services/scraper.py:106-231 | refused with no change while running; otherwise the run `SweepRun` describes, its status, the delay from the config, the record with the latest token and the last page's `last_run`, and the collection holding the records of the pages whose write succeeded, with the lock and the status flag cleared at the end |
| ScraperServices.ScraperService.GetStatus | full_backend/app/services/scraper.py:233-244 | the status, with `lastRun` refreshed from the state file when it holds a stamp |
| ScraperServices.ScraperService.StopScraping | full_backend/app/services/scraper.py:246-253 | returns whether a run held the lock and clears both flags |
| ScraperServices.ScraperService.ScheduleScraping | full_backend/app/services/scraper.py:255-274 | records the next run in the status and, with the interval, in the state file |
| MongoUtils.HarvestSaved | mongodb_utils.py:21-54 | saving one more batch extends the saved records by that batch |
| CliRunner.SavePage | main.py:72-86 | the page's records are saved to the collection, then the record of the next page |
| CliRunner.CrawlPage | main.py:61-86 | a fetch that gives up saves the page's own number; one that raises writes nothing; otherwise the page served is processed: the token refreshed, its records and the next page saved; the attempts consumed |
| CliRunner.Crawl | main.py:55-94 | the stop reason, the pages processed and the attempts left are `Walked` of the network's attempts; the last saved record (page and latest token) and the collection holding their records |
| CliRunner.WalkStops | main.py:55-94 | the loop never stops before its limit, stops for the limit only when the pages reach it, and stops after the last page exactly when a processed page is at or past the page count |
| CliRunner.WalkOnReliableNetwork | main.py:55-94 | when every attempt is served, the pages processed are the pages served, in order, and the loop never crashes |
| CliRunner.WalkIgnoresEmptyPage | main.py:55-94 | a page without announcements does not stop the command-line loop |
| CliRunner.RunOnFirstPage | main.py:37-53 | a run ends before its loop exactly when page 1 is not fetched, then with no page; page 1 is kept exactly when it was fetched |
| CliRunner.Run | main.py:28-94 | page 1, the stop reason and the pages processed are `RunOn` of the network's attempts from the resume page; no write when page 1 fails; otherwise the saved record resumes after the last processed page with the last non-empty token; the collection holds exactly the pages' records |
| CliRunner.MaxPagesArgReadsNumber | main.py:96-104 | a decimal first argument is the page limit |
| CliRunner.MaxPagesArgWithoutNumber | main.py:96-104 | without an argument, or with one holding no digit, there is no limit |
| CliRunner.MaxPagesArg | main.py:96-104 | no limit without an argument; otherwise the first argument read as an integer |
| CliRunner.CliMain | main.py:96-104 | the run `RunOn` describes, with the limit read from the arguments and the saved resume page; the collection holding the processed pages' records and the state file as `Run` leaves them |
| ScraperRoutes.ConfigFromState | full_backend/app/api/routes/scraper.py:174-193 | the config read from the state, each missing key at its default; `None` exactly when a value has the wrong type |
| ScraperRoutes.ConfigRoundTrip | full_backend/app/api/routes/scraper.py:174-230 | a stored config is read back as written |
| ScraperRoutes.StoreConfigKeepsOtherKeys | full_backend/app/api/routes/scraper.py:223-230 | storing a config writes exactly its four keys and keeps the resume point and every other key |
| ScraperRoutes.StoreConfig | full_backend/app/api/routes/scraper.py:223-230 | the state holds the four config keys afterwards, and keeps its resume page and token |
| ScraperRoutes.ConfigDefaults | full_backend/app/api/routes/scraper.py:181-186 | a state without config keys gives `maxPages None`, `startPage 1`, delay 2, enabled |
| ScraperRoutes.ConfigError | full_backend/app/api/routes/scraper.py:204-220 | a config passes exactly when a truthy `maxPages` is in 1..1000, `startPage` ≥ 1 and the delay is in 1..60 |
| ScraperRoutes.DefaultConfigIsValid | full_backend/app/models/announcement.py:117-121 | the default config passes the checks |
| ScraperRoutes.ShadowedStatusLosesCodes | full_backend/app/api/routes/scraper.py:40-45 | as written, every refusal of start, test and reset escapes as a bare 500 |
| ScraperRoutes.GuardsAnswerIntendedCodes | full_backend/app/api/routes/scraper.py:135-147 | with `status` naming the module, each guard refuses in its documented cases with 400 or 409 |
| ScraperRoutes.GuardsAgreeOnAcceptance | full_backend/app/api/routes/scraper.py:252-257 | both versions of each guard let exactly the same requests through |
| ScraperRoutes.StartGuardAsWritten | full_backend/app/api/routes/scraper.py:40-45 | refuses exactly while running, and the refusal escapes unhandled |
| ScraperRoutes.TestGuardAsWritten | full_backend/app/api/routes/scraper.py:135-147 | refuses exactly outside 1..5 pages or while running, and every refusal escapes unhandled |
| ScraperRoutes.ResetGuardAsWritten | full_backend/app/api/routes/scraper.py:252-257 | refuses exactly while running, and the refusal escapes unhandled |
| ScraperRoutes.StartGuard | full_backend/app/api/routes/scraper.py:40-45 | refuses exactly while running, with a 409 |
| ScraperRoutes.TestGuard | full_backend/app/api/routes/scraper.py:135-147 | refuses exactly outside 1..5 pages (400) or while running (409) |
| ScraperRoutes.ResetGuard | full_backend/app/api/routes/scraper.py:252-257 | refuses exactly while running, with a 409 |
| ScraperRoutes.GetScraperStatus | full_backend/app/api/routes/scraper.py:24-27 | the status held, with `lastRun` from the state file when it holds one, and nothing else changed |
| ScraperRoutes.OrElseStamp | full_backend/app/services/scraper.py:238-242 | a stamp read from the state wins over the held one |
| ScraperRoutes.StartScraper | full_backend/app/api/routes/scraper.py:30-70 | 409 exactly while running; otherwise an answer at once and a queued run with the limit and a config from the start page; the status refreshed by `get_status` and the delay kept |
| ScraperRoutes.RunScraperTask | full_backend/app/api/routes/scraper.py:16-21 | the queued run; refused with no change while another holds the lock; the collection holding the records of the pages the run saved |
| ScraperRoutes.StopScraper | full_backend/app/api/routes/scraper.py:73-89 | reports whether a run was stopped; the lock is released either way and the delay kept |
| ScraperRoutes.ScheduleScraper | full_backend/app/api/routes/scraper.py:92-125 | an interval in 1..168 hours is recorded; any other is refused with 400 and no change; the delay kept |
| ScraperRoutes.TestScraper | full_backend/app/api/routes/scraper.py:128-171 | 400 outside 1..5 pages, 409 while running, each with no run; otherwise the run `SweepRun` describes for that limit from page 1, never more than that many pages, with a one-second delay, the record after its last page and the collection holding the records of the pages whose write succeeded, answered with its status: the page-1 error, or the loop's error, the start time, the pages saved and the documents created; a 400 leaves the status as it was, a 409 refreshes only `lastRun` |
| ScraperRoutes.GetScraperConfig | full_backend/app/api/routes/scraper.py:174-193 | the stored config with defaults; 500 when a value has the wrong type |
| ScraperRoutes.UpdateScraperConfig | full_backend/app/api/routes/scraper.py:196-244 | a valid config is merged into the state file and echoed; the first failed check is answered with 400 and nothing changes |
| ScraperRoutes.ResetScraperState | full_backend/app/api/routes/scraper.py:247-281 | 409 while running, with only `lastRun` refreshed; otherwise the state file is emptied and the status is the initial one; the delay kept |

## Left out

- HTTP and HTML: `requests` sessions, timeouts, `raise_for_status`, lxml parsing and XPath
  selection are not modelled. A page is the input values and the rows the XPath
  expressions would select, and a row is its selected strings.
- Clocks and sleeping: `datetime.utcnow()`, `utcnow() + timedelta(...)` and `isoformat()`
  are parameters or opaque stamps. A sleep is only recorded with its duration. `DateTime`
  keeps the minute: the seconds and microseconds of `utcnow()` stamps (`createdAt`,
  `updatedAt`, `last_run`, `lastRun`, `nextRun`) are dropped.
- AnnouncementService.BulkUpsertAnnouncements: one clock reading stamps every record of
  the batch. full_backend/app/services/announcement.py:174-187 reads `utcnow()` again for
  each record and each field, so the stamps of one batch may differ by the time the loop
  takes. A service run does take a separate reading per page (`PageEnv`).
- MongoDB: the driver, indexes and the queries' server-side matching are not modelled.
  A keyed record matches the document stored under the same identity key. The
  `$setOnInsert` of `createdAt` is not modelled. It conflicts with the `$set` of the same
  field at full_backend/app/services/announcement.py:187, which a MongoDB server refuses,
  so on a real server a batch with a keyed record stores nothing. The model does not
  derive that failure; it is one of the outcomes the per-page storage flag admits.
- Storage errors: each call of `bulk_upsert_announcements` fails or succeeds as a whole,
  by its `storageFails` flag; in a service run, each page has its own (`PageEnv`). A
  `bulk_write` that applies some upserts before it raises is not modelled. The error paths of `save_announcements`, `get_announcements` and
  `update_announcement` (a raised exception) are not modelled.
- Concurrency: FastAPI background tasks run later and concurrently. Here `/start` returns
  the background job it queues, and `RunScraperTask` runs it.
- Status updates during a run: `current_status` changes inside the page loop are folded
  into the final update. A concurrent `stop_scraping` cannot interrupt a modelled run.
- Not part of this model:
  - the Celery tasks (`tasks/scraper_tasks.py`, `celery_app.py`) and their progress
    callback;
  - authentication (`require_admin`, `services/auth.py`, `api/routes/auth.py`);
  - the announcement CRUD routes;
  - the application setup and the database module;
  - the other `AnnouncementService` operations (create, get by id, delete, statistics,
    text search, expiring soon).
- Logging and `print` are not modelled.
- The extractor: the service imports `extract_announcements_from_tree` from
  `app.scraper.extraction` (full_backend/app/services/scraper.py:87), which is not part of
  this model. The service is modelled with the extractor of extraction.py, which the
  command-line tool uses, on the assumption that the two are the same.
- Characters: whitespace is Python's `str.isspace` set. Digits, case-insensitive
  matching and lower-casing cover ASCII only. `\w` in the procedure-code pattern covers
  ASCII and the Latin-1 letters. No Unicode normalisation.
- JSON: the state file holds integers, booleans, `null`, strings, and `isoformat()`
  stamps as `JStamp`. Other values are opaque, and a string that looks like a stamp is
  not parsed back into one.
- ScraperServices.SavedToken: a stored `prado_state` that is neither a string nor `null`
  reads as no token. The service would pass such a value on into the postback through
  `prado_state or ""`. Both crawlers only write strings or `null` there, so only a
  hand-edited state file can hold one.
- StateFiles.StateFile.Save: a write always succeeds; file-system errors are not
  modelled. The two callers differ there. The service's `save_state`
  (full_backend/app/services/scraper.py:90-95) logs a failed `write_text` and carries on.
  The command-line `save_state` (main.py:25-26) lets the exception escape and ends the
  run. The state-file ensures of `CliRunner.Run`, `CliRunner.CrawlPage`,
  `ScraperServices.ScraperService.ScrapePages` and the routes hold only for a file system
  that does not fail.
- pydantic: coercion (strings to integers, ISO strings to dates) is not modelled. A
  stored config whose values have the wrong type is rejected rather than coerced.
- StateFiles.ResumePage: requires the saved `current_page`, when present, to be an
  integer. Both crawlers only ever write integers there, but a hand-edited state file
  could break this.
- Fetch.FetchPage: the network is a finite sequence of attempt outcomes. Once it runs
  out, every further attempt meets a request error.
- CliRunner.Crawl: the loop's termination rests on each processed page consuming an
  attempt from that finite sequence. The source has no such bound.
- ScraperServices.ScraperService.ScrapeLoop: the same termination argument as `Crawl`.
- ScraperServices.ScraperService.FetchWithRetries: it does not say which log line goes
  with which failure.
- ScraperRoutes.RunScraperTask: it states the lock, the state file when refused and the
  collection, not the rest of the run's effects, which `ScrapePages` states.
- ScraperRoutes.StartScraper: the route models the guard with the corrected status
  codes; the code as written is modelled by the `…AsWritten` guards.
- ScraperRoutes.TestScraper: the route models the corrected 400 and 409. As written, both
  refusals escape as a bare 500 (see Findings and `TestGuardAsWritten`).
- ScraperRoutes.ResetScraperState: the route models the corrected 409. As written, the
  refusal escapes as a bare 500 (see Findings and `ResetGuardAsWritten`).
- AnnouncementService.BulkUpsertAnnouncements: the batch is split into upserts and direct
  inserts by the kind of each operation, as mongodb_utils.py:45-46 does. The service's own
  test at full_backend/app/services/announcement.py:193-194 is `hasattr(op, 'upsert')`,
  which depends on the driver's `UpdateOne` attributes and is not modelled.
- Storage.Collection.BulkWrite: the upserts are applied in batch order. `bulk_write(...,
  ordered=False)` does not promise that order, so when a batch names the same key twice
  the document the server keeps may differ from the model's.
- Storage.ApplyUpsertsValue: "later updates winning" holds for the order the model
  applies; under `ordered=False` it is not promised when a batch names a key twice.
- CliRunner.Crawl and ScraperServices.ScraperService.ScrapeLoop: the requests sent and the
  sleeps taken are stated for each fetch (`Fetch.FetchPage`,
  `ScraperServices.ScraperService.FetchWithRetries`), not collected across the pages of a
  run.

## Findings

| source | as written | input that shows it | evidently intended | confidence | as-written member | corrected member |
|---|---|---|---|---|---|---|
| full_backend/app/api/routes/scraper.py:40-45 | `status = await scraper_service.get_status()` makes `status` a local variable of `start_scraper`, so `status.HTTP_409_CONFLICT` is read from a `ScraperStatus`; that raises, and so does `status.HTTP_500_…` in the `except` handler | `POST /start` while a run holds the lock | a 409 "Scraper is already running" | not executed | ScraperRoutes.ShadowedStatusLosesCodes | ScraperRoutes.GuardsAnswerIntendedCodes |
| full_backend/app/api/routes/scraper.py:135-147 | `test_scraper` also assigns `status` later in the handler, so the page check at line 137 reads an unbound local and the running check reads a `ScraperStatus` | `POST /test?pages=9` | a 400 "Test pages must be between 1 and 5" (and a 409 while running) | not executed | ScraperRoutes.ShadowedStatusLosesCodes | ScraperRoutes.GuardsAnswerIntendedCodes |
| full_backend/app/api/routes/scraper.py:252-257 | `reset_scraper_state` shadows `status` the same way | `DELETE /reset` while a run holds the lock | a 409 "Cannot reset while scraper is running" | not executed | ScraperRoutes.ShadowedStatusLosesCodes | ScraperRoutes.GuardsAnswerIntendedCodes |
