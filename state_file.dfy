/**
 * The crawl-state file both crawlers keep (state.json for the command-line tool,
 * scraper_state.json for the service): a JSON object read at the start of a run and
 * rewritten after every page, so that the next run resumes where this one stopped.
 */
module StateFiles {
  import opened Wrappers
  import opened Models

  /**
   * A JSON value as the crawlers store it. `JStamp` is a timestamp written with
   * `isoformat()`; `JOther` stands for floats, lists and nested objects, which nothing here reads.
   */
  datatype Json = JNull | JBool(b: bool) | JInt(i: int) | JStr(s: string) | JStamp(at: DateTime) | JOther

  /** The saved object. */
  type State = map<string, Json>

  /** What the file holds: nothing, text that does not parse as JSON, or an object. */
  datatype FileContent = Missing | Unparsable | Saved(state: State)

  /** `load_state()`: the saved object, or `{}` when the file is missing or does not parse. */
  function Loaded(c: FileContent): State {
    if c.Saved? then c.state else map[]
  }

  /** The state file, which every save overwrites whole. */
  class StateFile {
    var content: FileContent

    constructor (content: FileContent)
      ensures this.content == content
    {
      this.content := content;
    }

    /** `load_state()` */
    method Load() returns (s: State)
      ensures s == Loaded(content)
    {
      s := Loaded(content);
    }

    /** `save_state(state)` */
    method Save(s: State)
      modifies this
      ensures content == Saved(s)
    {
      content := Saved(s);
    }
  }

  /** A save is read back as it was written. */
  lemma {:induction false} LoadAfterSave(s: State)
    ensures Loaded(Saved(s)) == s
  {
  }

  /** A missing or broken file loads as the empty object. */
  lemma {:induction false} LoadWithoutState(c: FileContent)
    requires !c.Saved?
    ensures Loaded(c) == map[] && "current_page" !in Loaded(c)
  {
  }

  // ---------------------------------------------------------------------------------------
  // The resume point

  /** The page to resume from, when the state has one, is an integer. Every state either crawler writes keeps this. */
  predicate PageIsInteger(s: State) {
    "current_page" in s ==> s["current_page"].JInt?
  }

  /** `state.get("current_page", start_page)` */
  function ResumePage(s: State, startPage: int): (r: int)
    requires PageIsInteger(s)
    ensures "current_page" in s ==> s["current_page"] == JInt(r)
    ensures "current_page" !in s ==> r == startPage
  {
    if "current_page" in s then s["current_page"].i else startPage
  }

  /** How a token is stored: `null` for `None`. */
  function TokenJson(token: Option<string>): Json {
    if token.Some? then JStr(token.value) else JNull
  }

  /** The token a stored value gives back. */
  function TokenOf(j: Json): (token: Option<string>)
    ensures token.Some? <==> j.JStr?
  {
    if j.JStr? then Some(j.s) else None
  }

  lemma {:induction false} TokenRoundTrip(token: Option<string>)
    ensures TokenOf(TokenJson(token)) == token
  {
  }

  /** `{"current_page": page, "prado_state": token}`: the record written after a page. */
  function Progress(page: int, token: Option<string>): State {
    map["current_page" := JInt(page), "prado_state" := TokenJson(token)]
  }

  /** A saved record sends the next run to the page it names, with the token it holds, whatever page that run is asked to start from. */
  lemma {:induction false} ProgressResumes(page: int, token: Option<string>, startPage: int)
    ensures PageIsInteger(Progress(page, token))
    ensures ResumePage(Progress(page, token), startPage) == page
    ensures TokenOf(Progress(page, token)["prado_state"]) == token
  {
  }

  /** Without a saved page a run starts from the page it was asked to. */
  lemma {:induction false} FreshStateStartsAtStartPage(c: FileContent, startPage: int)
    requires !c.Saved?
    ensures PageIsInteger(Loaded(c)) && ResumePage(Loaded(c), startPage) == startPage
  {
  }

  // ---------------------------------------------------------------------------------------
  // The latest token

  /** `new or old`: a token found on a page replaces the held one unless it is missing or empty. */
  function Refreshed(held: Option<string>, found: Option<string>): (r: Option<string>)
    ensures r == held || r == found
    ensures r == found <== found.Some? && found.value != ""
  {
    if found.Some? && found.value != "" then found else held
  }

  /** The token held after the tokens found on a sequence of pages, starting from `held`. */
  function LatestToken(held: Option<string>, found: seq<Option<string>>): Option<string>
    decreases |found|
  {
    if found == [] then held else Refreshed(LatestToken(held, found[..|found| - 1]), found[|found| - 1])
  }

  predicate NonEmpty(t: Option<string>) {
    t.Some? && t.value != ""
  }

  /** While no page carries a non-empty token, the starting one is kept. */
  lemma {:induction false} LatestTokenWithoutFinds(held: Option<string>, found: seq<Option<string>>)
    requires forall j :: 0 <= j < |found| ==> !NonEmpty(found[j])
    ensures LatestToken(held, found) == held
    decreases |found|
  {
    if found != [] {
      var init := found[..|found| - 1];
      assert forall j :: 0 <= j < |init| ==> init[j] == found[j];
      LatestTokenWithoutFinds(held, init);
    }
  }

  /** The latest token is the last non-empty one found. */
  lemma {:induction false} LatestTokenIsLastFound(held: Option<string>, found: seq<Option<string>>, j: nat)
    requires j < |found| && NonEmpty(found[j])
    requires forall k :: j < k < |found| ==> !NonEmpty(found[k])
    ensures LatestToken(held, found) == found[j]
    decreases |found|
  {
    var init := found[..|found| - 1];
    if j < |found| - 1 {
      assert forall k :: j < k < |init| ==> init[k] == found[k];
      LatestTokenIsLastFound(held, init, j);
    }
  }

  /** Appending the tokens of one more page. */
  lemma {:induction false} LatestTokenStep(held: Option<string>, found: seq<Option<string>>, t: Option<string>)
    ensures LatestToken(held, found + [t]) == Refreshed(LatestToken(held, found), t)
  {
    assert (found + [t])[..|found|] == found;
  }
}
