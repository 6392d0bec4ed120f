/**
 * The configuration the crawler reads: the constants of the command-line tool (config.py),
 * the service settings (full_backend/app/core/config.py) and the validator that turns the
 * `ALLOWED_ORIGINS` setting into a list.
 */
module Settings {
  import opened Wrappers
  import opened Text

  // ---------------------------------------------------------------------------------------
  // Constants

  /** The advanced-search page both crawlers start from. */
  const BaseUrl := "https://www.marchespublics.gov.ma/index.php?page=entreprise.EntrepriseAdvancedSearch&searchAnnCons&keyWord="

  /** The form fields of a PRADO pagination postback. */
  const PradoStateField := "PRADO_PAGESTATE"
  const PradoStateFieldAlternative := "PRADO_PAGE_STATE"
  const PostbackTargetField := "PRADO_POSTBACK_TARGET"
  const PostbackParameterField := "PRADO_POSTBACK_PARAMETER"
  const PagerTarget := "ctl0$CONTENU_PAGE$resultSearch$PagerTop$ctl2"
  const NumPageField := "ctl0$CONTENU_PAGE$resultSearch$numPageTop"

  /** The command-line tool: seconds to wait after a page, request timeout, default attempts. */
  const CliDelayBetweenRequests := 2
  const CliRequestTimeout := 15
  const CliMaxRetries := 3

  /** The service's defaults for the same three settings. */
  const ScraperDelayBetweenRequests := 2
  const ScraperRequestTimeout := 15
  const ScraperMaxRetries := 3

  // ---------------------------------------------------------------------------------------
  // assemble_cors_origins

  /** A value given for `ALLOWED_ORIGINS`: a string, a list of strings, or anything else. */
  datatype CorsValue = CorsText(text: string) | CorsList(origins: seq<string>) | CorsOther

  /**
   * `assemble_cors_origins(v)`: a string not starting with `[` is split on commas and each
   * piece stripped; a string starting with `[` and a list are kept as they are; anything
   * else raises `ValueError`.
   */
  function AssembleCorsOrigins(v: CorsValue): (r: Result<CorsValue, string>)
    ensures v.CorsOther? <==> r.Failure?
    ensures v.CorsList? ==> r == Success(v)
    ensures v.CorsText? && StartsWith(v.text, "[") ==> r == Success(v)
  {
    match v
    case CorsText(s) =>
      if !StartsWith(s, "[") then
        var parts := SplitOn(s, ',');
        Success(CorsList(seq(|parts|, i requires 0 <= i < |parts| => Strip(parts[i]))))
      else Success(v)
    case CorsList(_) => Success(v)
    case CorsOther => Failure("ValueError")
  }

  /** A comma-separated string gives one origin per comma-separated piece, stripped, in order. */
  lemma {:induction false} CorsOriginsSplit(s: string)
    requires !StartsWith(s, "[")
    ensures AssembleCorsOrigins(CorsText(s)).Success?
    ensures var r := AssembleCorsOrigins(CorsText(s)).value;
      && r.CorsList?
      && |r.origins| == multiset(s)[','] + 1
      && (forall i :: 0 <= i < |r.origins| ==> IsStripped(r.origins[i]) && ',' !in r.origins[i])
      && (forall i :: 0 <= i < |r.origins| ==> r.origins[i] == Strip(SplitOn(s, ',')[i]))
  {
    var parts := SplitOn(s, ',');
    forall i | 0 <= i < |parts| ensures ',' !in Strip(parts[i]) {
      StripIsSlice(parts[i]);
    }
  }

  /** A stripped string is a slice of the original, so it holds no character the original lacks. */
  lemma {:induction false} StripIsSlice(t: string)
    ensures forall c :: c in Strip(t) ==> c in t
  {
    var r := Strip(t);
    StripIsSliceBetweenBlanks(t);
    var i, j :| 0 <= i <= j <= |t| && r == t[i..j];
    forall c | c in r ensures c in t {
      var k :| 0 <= k < |r| && r[k] == c;
      assert t[i + k] == c;
    }
  }

  /** Origins written without blanks around the commas come back exactly, the commas removed. */
  lemma {:induction false} CorsOriginsRejoin(s: string)
    requires !StartsWith(s, "[")
    requires forall i :: 0 <= i < |SplitOn(s, ',')| ==> IsStripped(SplitOn(s, ',')[i])
    ensures Join(AssembleCorsOrigins(CorsText(s)).value.origins, ",") == s
  {
    var parts := SplitOn(s, ',');
    var origins := AssembleCorsOrigins(CorsText(s)).value.origins;
    forall i | 0 <= i < |parts| ensures origins[i] == parts[i] {
      StrippedIsFixpoint(parts[i]);
    }
    assert origins == parts;
  }
}
