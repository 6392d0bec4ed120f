/**
 * The record types of the API layer (full_backend/app/models/announcement.py) and the
 * dictionary shape in which the extractor, the storage layer and the scraper pass
 * announcements around.
 */
module Models {
  import opened Wrappers

  // ---------------------------------------------------------------------------------------
  // Dates

  /** A `datetime` to the minute: dates parsed from pages carry none, and the seconds of `utcnow()` stamps are not kept. */
  datatype DateTime = DateTime(year: int, month: int, day: int, hour: int, minute: int)

  /** The proleptic Gregorian leap-year rule that `datetime` uses. */
  predicate IsLeapYear(y: int) {
    y % 4 == 0 && (y % 100 != 0 || y % 400 == 0)
  }

  function DaysInMonth(year: int, month: int): (n: int)
    requires 1 <= month <= 12
    ensures 28 <= n <= 31
    ensures month == 2 ==> (n == 29 <==> IsLeapYear(year))
    ensures month != 2 ==> n >= 30
  {
    if month == 2 then (if IsLeapYear(year) then 29 else 28)
    else if month == 4 || month == 6 || month == 9 || month == 11 then 30
    else 31
  }

  /** What `datetime` accepts: years 1 to 9999, a day that exists in its month, a time of day. */
  predicate ValidDateTime(d: DateTime) {
    && 1 <= d.year <= 9999
    && 1 <= d.month <= 12
    && 1 <= d.day <= DaysInMonth(d.year, d.month)
    && 0 <= d.hour <= 23
    && 0 <= d.minute <= 59
  }

  // ---------------------------------------------------------------------------------------
  // Records as dictionaries

  /** A value stored under a key of an announcement dictionary or a stored document. */
  datatype FieldValue = Text(s: string) | Stamp(at: DateTime) | Links(urls: seq<string>) | Null

  /** Python truthiness of a field value: empty strings, empty lists and `None` are false. */
  predicate Truthy(v: FieldValue) {
    match v
    case Text(s) => s != ""
    case Stamp(_) => true
    case Links(urls) => urls != []
    case Null => false
  }

  /** An announcement as a dictionary, and a stored document. */
  type Doc = map<string, FieldValue>

  /** `AnnouncementBase`: the eleven fields of an announcement. */
  datatype Announcement = Announcement(
    procedure: string,
    categorie: string,
    reference: string,
    objet: string,
    acheteurPublic: string,
    lots: string,
    lieuExecution: string,
    lienDeConsultation: string,
    piecesJointes: seq<string>,
    datePublication: Option<DateTime>,
    dateLimite: Option<DateTime>)

  const NotAvailable := "N/A"
  const NoLots := "-"

  /** The field defaults of `AnnouncementBase`. */
  const DefaultAnnouncement := Announcement(
    NotAvailable, NotAvailable, NotAvailable, NotAvailable, NotAvailable, NoLots,
    NotAvailable, NotAvailable, [], None, None)

  const FieldNames: set<string> := {
    "procedure", "categorie", "reference", "objet", "acheteurPublic", "lots",
    "lieuExecution", "lienDeConsultation", "piecesJointes", "datePublication", "dateLimite"}

  function StampOrNull(d: Option<DateTime>): FieldValue {
    match d
    case Some(t) => Stamp(t)
    case None => Null
  }

  /** The dictionary `a.dict()`: one key per field, dates that are absent stored as `None`. */
  function AsDoc(a: Announcement): (d: Doc)
    ensures d.Keys == FieldNames
  {
    map[
      "procedure" := Text(a.procedure),
      "categorie" := Text(a.categorie),
      "reference" := Text(a.reference),
      "objet" := Text(a.objet),
      "acheteurPublic" := Text(a.acheteurPublic),
      "lots" := Text(a.lots),
      "lieuExecution" := Text(a.lieuExecution),
      "lienDeConsultation" := Text(a.lienDeConsultation),
      "piecesJointes" := Links(a.piecesJointes),
      "datePublication" := StampOrNull(a.datePublication),
      "dateLimite" := StampOrNull(a.dateLimite)]
  }

  function TextField(d: Doc, k: string): Option<string> {
    if k in d && d[k].Text? then Some(d[k].s) else None
  }

  function DateField(d: Doc, k: string): Option<Option<DateTime>> {
    if k !in d then None
    else match d[k]
      case Stamp(t) => Some(Some(t))
      case Null => Some(None)
      case _ => None
  }

  /**
   * Reading a dictionary back as an `AnnouncementBase`, as the API's models do with
   * stored documents: `None` when a field is missing or has the wrong type.
   */
  function FromDoc(d: Doc): Option<Announcement> {
    if && TextField(d, "procedure").Some? && TextField(d, "categorie").Some?
       && TextField(d, "reference").Some? && TextField(d, "objet").Some?
       && TextField(d, "acheteurPublic").Some? && TextField(d, "lots").Some?
       && TextField(d, "lieuExecution").Some? && TextField(d, "lienDeConsultation").Some?
       && "piecesJointes" in d && d["piecesJointes"].Links?
       && DateField(d, "datePublication").Some? && DateField(d, "dateLimite").Some?
    then
      Some(Announcement(
        TextField(d, "procedure").value, TextField(d, "categorie").value,
        TextField(d, "reference").value, TextField(d, "objet").value,
        TextField(d, "acheteurPublic").value, TextField(d, "lots").value,
        TextField(d, "lieuExecution").value, TextField(d, "lienDeConsultation").value,
        d["piecesJointes"].urls,
        DateField(d, "datePublication").value, DateField(d, "dateLimite").value))
    else None
  }

  /** A record written as a dictionary reads back as the same record. */
  lemma {:induction false} FromDocAsDoc(a: Announcement)
    ensures FromDoc(AsDoc(a)) == Some(a)
  {
    var d := AsDoc(a);
    assert DateField(d, "datePublication") == Some(a.datePublication);
    assert DateField(d, "dateLimite") == Some(a.dateLimite);
  }

  /** A dictionary that reads as a record agrees with that record's dictionary on every field. */
  lemma {:induction false} AsDocFromDoc(d: Doc)
    requires FromDoc(d).Some?
    ensures forall k :: k in FieldNames ==> k in d && AsDoc(FromDoc(d).value)[k] == d[k]
  {
    var a := FromDoc(d).value;
    assert StampOrNull(a.datePublication) == d["datePublication"];
    assert StampOrNull(a.dateLimite) == d["dateLimite"];
  }

  /** `AnnouncementUpdate`: every field optional; `None` means "leave unchanged". */
  datatype AnnouncementUpdate = AnnouncementUpdate(
    procedure: Option<string>,
    categorie: Option<string>,
    reference: Option<string>,
    objet: Option<string>,
    acheteurPublic: Option<string>,
    lots: Option<string>,
    lieuExecution: Option<string>,
    lienDeConsultation: Option<string>,
    piecesJointes: Option<seq<string>>,
    datePublication: Option<DateTime>,
    dateLimite: Option<DateTime>)

  /** An `AnnouncementUpdate()` built with no arguments. */
  const EmptyUpdate := AnnouncementUpdate(None, None, None, None, None, None, None, None, None, None, None)

  // ---------------------------------------------------------------------------------------
  // Enumerations

  datatype ProcedureType = AO | AOO | AOR | CC | MA {
    function Code(): string {
      match this
      case AO => "AO"
      case AOO => "AOO"
      case AOR => "AOR"
      case CC => "CC"
      case MA => "MA"
    }
  }

  /** `ProcedureType(s)`: the member whose value is `s`, `None` where Python raises `ValueError`. */
  function ParseProcedureType(s: string): (r: Option<ProcedureType>)
    ensures r.Some? ==> r.value.Code() == s
    ensures r.None? <==> forall p: ProcedureType :: p.Code() != s
  {
    if s == "AO" then Some(AO)
    else if s == "AOO" then Some(AOO)
    else if s == "AOR" then Some(AOR)
    else if s == "CC" then Some(CC)
    else if s == "MA" then Some(MA)
    else None
  }

  lemma {:induction false} ProcedureTypeRoundTrip(p: ProcedureType)
    ensures ParseProcedureType(p.Code()) == Some(p)
  {
  }

  datatype UserRole = Admin | User | Viewer {
    function Value(): string {
      match this
      case Admin => "admin"
      case User => "user"
      case Viewer => "viewer"
    }
  }

  /** `UserRole(s)`: the role whose value is `s`, `None` where Python raises `ValueError`. */
  function ParseUserRole(s: string): (r: Option<UserRole>)
    ensures r.Some? ==> r.value.Value() == s
    ensures r.None? <==> forall u: UserRole :: u.Value() != s
  {
    if s == "admin" then Some(Admin)
    else if s == "user" then Some(User)
    else if s == "viewer" then Some(Viewer)
    else None
  }

  lemma {:induction false} UserRoleRoundTrip(u: UserRole)
    ensures ParseUserRole(u.Value()) == Some(u)
  {
  }

  // ---------------------------------------------------------------------------------------
  // Scraper records

  /** `ScraperStatus`, as the service keeps it and the API reports it. */
  datatype ScraperStatus = ScraperStatus(
    isRunning: bool,
    lastRun: Option<DateTime>,
    nextRun: Option<DateTime>,
    lastScrapedPages: int,
    totalAnnouncementsScraped: int,
    errors: seq<string>)

  /** The status a fresh service starts with, and the one a reset installs. */
  const InitialStatus := ScraperStatus(false, None, None, 0, 0, [])

  /** `ScraperConfig`; `maxPages == None` means "no limit". */
  datatype ScraperConfig = ScraperConfig(
    maxPages: Option<int>,
    startPage: int,
    delayBetweenRequests: int,
    enabled: bool)

  /** `ScraperConfig()` with every field at its declared default. */
  const DefaultScraperConfig := ScraperConfig(None, 1, 2, true)
}
