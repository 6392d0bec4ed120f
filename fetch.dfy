/**
 * Fetching result pages (fetch.py): the PRADO page-state token read from a page, the
 * request a page number calls for, and the retry loop. The network is an object that
 * hands out, attempt by attempt, what each request meets, and records what was sent and
 * how long the loop chose to sleep.
 */
module Fetch {
  import opened Wrappers
  import opened Text
  import opened Settings
  import opened Extraction

  // ---------------------------------------------------------------------------------------
  // Pages

  /**
   * A fetched page, as the crawler reads it: the `(name, value)` pairs of its `<input>`
   * elements that have a value, in document order, and the rows of its result table.
   */
  datatype Page = Page(inputs: seq<(string, string)>, rows: seq<TreeRow>)

  /** `tree.xpath('//input[@name="…"]/@value')[0]`, `None` when the list is empty. */
  function FirstValue(inputs: seq<(string, string)>, name: string): Option<string> {
    if inputs == [] then None
    else if inputs[0].0 == name then Some(inputs[0].1)
    else FirstValue(inputs[1..], name)
  }

  /** A value is read exactly when an input has the name, and it is the value of the first such input. */
  lemma {:induction false} FirstValueSound(inputs: seq<(string, string)>, name: string)
    ensures var r := FirstValue(inputs, name);
      && (r.None? <==> forall i :: 0 <= i < |inputs| ==> inputs[i].0 != name)
      && (r.Some? ==> exists i :: (0 <= i < |inputs| && inputs[i] == (name, r.value)
                                   && forall j :: 0 <= j < i ==> inputs[j].0 != name))
  {
    if inputs != [] && inputs[0].0 != name {
      var r := FirstValue(inputs[1..], name);
      FirstValueSound(inputs[1..], name);
      assert forall i :: 1 <= i < |inputs| ==> inputs[i] == inputs[1..][i - 1];
      if r.Some? {
        var i :| 0 <= i < |inputs[1..]| && inputs[1..][i] == (name, r.value)
          && forall j :: 0 <= j < i ==> inputs[1..][j].0 != name;
        assert inputs[i + 1] == (name, r.value);
      }
    }
  }

  /** The value of the first input called `name` is the one read, whatever follows it. */
  lemma {:induction false} FirstValueOfFirst(inputs: seq<(string, string)>, name: string, i: nat)
    requires i < |inputs| && inputs[i].0 == name
    requires forall j :: 0 <= j < i ==> inputs[j].0 != name
    ensures FirstValue(inputs, name) == Some(inputs[i].1)
  {
    FirstValueSound(inputs, name);
    var r := FirstValue(inputs, name);
    var k :| 0 <= k < |inputs| && inputs[k] == (name, r.value) && forall j :: 0 <= j < k ==> inputs[j].0 != name;
    assert !(k < i) && !(i < k);
  }

  /**
   * `extract_prado_state(tree)`: the first `PRADO_PAGESTATE` value, else the first
   * `PRADO_PAGE_STATE` value, else `None`.
   */
  function ExtractPradoState(p: Page): (r: Option<string>)
    ensures FirstValue(p.inputs, PradoStateField).Some? ==> r == FirstValue(p.inputs, PradoStateField)
    ensures r.None? <==> FirstValue(p.inputs, PradoStateField).None? && FirstValue(p.inputs, PradoStateFieldAlternative).None?
  {
    match FirstValue(p.inputs, PradoStateField)
    case Some(v) => Some(v)
    case None => FirstValue(p.inputs, PradoStateFieldAlternative)
  }

  /** A token is found exactly when the page has an input of either name, and it is that input's value. */
  lemma {:induction false} PradoStateFound(p: Page)
    ensures var r := ExtractPradoState(p);
      && (r.None? <==> forall i :: 0 <= i < |p.inputs| ==>
            p.inputs[i].0 != PradoStateField && p.inputs[i].0 != PradoStateFieldAlternative)
      && (r.Some? ==> exists i :: (0 <= i < |p.inputs| && p.inputs[i].1 == r.value
            && (p.inputs[i].0 == PradoStateField || p.inputs[i].0 == PradoStateFieldAlternative)))
  {
    FirstValueSound(p.inputs, PradoStateField);
    FirstValueSound(p.inputs, PradoStateFieldAlternative);
  }

  /** The `PRADO_PAGESTATE` name wins over the older spelling wherever the two appear. */
  lemma {:induction false} PradoStatePrefersCurrentName(p: Page, i: nat)
    requires i < |p.inputs| && p.inputs[i].0 == PradoStateField
    requires forall j :: 0 <= j < i ==> p.inputs[j].0 != PradoStateField
    ensures ExtractPradoState(p) == Some(p.inputs[i].1)
  {
    FirstValueOfFirst(p.inputs, PradoStateField, i);
  }

  /** Without a `PRADO_PAGESTATE` input the older spelling is read. */
  lemma {:induction false} PradoStateFallsBack(p: Page)
    requires forall j :: 0 <= j < |p.inputs| ==> p.inputs[j].0 != PradoStateField
    ensures ExtractPradoState(p) == FirstValue(p.inputs, PradoStateFieldAlternative)
  {
    FirstValueSound(p.inputs, PradoStateField);
  }

  /** `int(tree.xpath('//input[@name="totalPages"]/@value')[0])`, `None` when missing or not a number. */
  function TotalPages(p: Page): (r: Option<int>)
    ensures FirstValue(p.inputs, "totalPages").None? ==> r.None?
    ensures FirstValue(p.inputs, "totalPages").Some? ==> r == ParseInt(FirstValue(p.inputs, "totalPages").value)
  {
    match FirstValue(p.inputs, "totalPages")
    case Some(v) => ParseInt(v)
    case None => None
  }

  /** A page announcing `n` pages in decimal gives `n`. */
  lemma {:induction false} TotalPagesReadsNumber(p: Page, i: nat, n: int)
    requires i < |p.inputs| && p.inputs[i] == ("totalPages", IntToDecimal(n))
    requires forall j :: 0 <= j < i ==> p.inputs[j].0 != "totalPages"
    ensures TotalPages(p) == Some(n)
  {
    FirstValueOfFirst(p.inputs, "totalPages", i);
    IntRoundTrip(n);
  }

  // ---------------------------------------------------------------------------------------
  // Requests

  /** A request: a `GET`, or a `POST` of a form given as `(field, value)` pairs. */
  datatype Request = Get(url: string) | Post(url: string, form: seq<(string, string)>)

  /** `prado_state or ""` */
  function TokenOrEmpty(token: Option<string>): string {
    if token.Some? then token.value else ""
  }

  /**
   * The request for a page: page 1 is a plain `GET`; any other page is the pager's
   * postback, carrying the token, the pager target, an empty parameter and the page number.
   */
  function RequestFor(url: string, pageNum: int, token: Option<string>): (r: Request)
    ensures r.url == url
    ensures r.Get? <==> pageNum == 1
  {
    if pageNum == 1 then Get(url)
    else Post(url, [
      (PradoStateField, TokenOrEmpty(token)),
      (PostbackTargetField, PagerTarget),
      (PostbackParameterField, ""),
      (NumPageField, IntToDecimal(pageNum))])
  }

  /** The value a form sends for a field: that of its first entry. */
  function FormValue(form: seq<(string, string)>, field: string): Option<string> {
    FirstValue(form, field)
  }

  /** A postback sends exactly four fields, and the page number and the token can be read back from it. */
  lemma {:induction false} PostbackCarriesPageAndToken(url: string, pageNum: int, token: Option<string>)
    requires pageNum != 1
    ensures RequestFor(url, pageNum, token).Post?
    ensures var form := RequestFor(url, pageNum, token).form;
      && |form| == 4
      && FormValue(form, PradoStateField) == Some(TokenOrEmpty(token))
      && FormValue(form, PostbackTargetField) == Some(PagerTarget)
      && FormValue(form, PostbackParameterField) == Some("")
      && FormValue(form, NumPageField).Some?
      && ParseInt(FormValue(form, NumPageField).value) == Some(pageNum)
  {
    var form := RequestFor(url, pageNum, token).form;
    PostbackFieldsDistinct();
    FirstValueOfFirst(form, PradoStateField, 0);
    FirstValueOfFirst(form, PostbackTargetField, 1);
    FirstValueOfFirst(form, PostbackParameterField, 2);
    FirstValueOfFirst(form, NumPageField, 3);
    IntRoundTrip(pageNum);
  }

  /** The four fields of a postback have four different names. */
  lemma {:induction false} PostbackFieldsDistinct()
    ensures PostbackTargetField != PradoStateField
    ensures PostbackParameterField != PradoStateField && PostbackParameterField != PostbackTargetField
    ensures NumPageField != PradoStateField && NumPageField != PostbackTargetField && NumPageField != PostbackParameterField
  {
    assert PostbackTargetField[7] != PradoStateField[7];
    assert PostbackParameterField[7] != PradoStateField[7];
    assert PostbackParameterField[15] != PostbackTargetField[15];
    assert NumPageField[0] != 'P';
  }

  // ---------------------------------------------------------------------------------------
  // The network

  /**
   * What one attempt meets: a page served (the response was successful and parsed), a
   * `requests.RequestException`, or any other exception.
   */
  datatype Attempt = Served(page: Page) | RequestError | OtherError

  /** What attempt `i` meets; once the sequence is used up, every attempt meets a request error. */
  function AttemptAt(attempts: seq<Attempt>, i: nat): Attempt {
    if i < |attempts| then attempts[i] else RequestError
  }

  /** The attempts left after `k` of them were made. */
  function Drop(attempts: seq<Attempt>, k: nat): (r: seq<Attempt>)
    ensures |r| <= |attempts|
    ensures AttemptAt(r, 0) == AttemptAt(attempts, k)
  {
    if k <= |attempts| then attempts[k..] else []
  }

  lemma {:induction false} DropStep(attempts: seq<Attempt>, k: nat)
    ensures Drop(Drop(attempts, k), 1) == Drop(attempts, k + 1)
  {
  }

  /** The outside world of a crawl: what the next attempts meet, the requests sent, the sleeps taken. */
  class Network {
    var attempts: seq<Attempt>
    var sent: seq<Request>
    var sleeps: seq<int>

    constructor (attempts: seq<Attempt>)
      ensures this.attempts == attempts && sent == [] && sleeps == []
    {
      this.attempts := attempts;
      sent := [];
      sleeps := [];
    }

    /** Sends a request and reports what this attempt met. */
    method Send(r: Request) returns (a: Attempt)
      modifies this
      ensures a == AttemptAt(old(attempts), 0) && attempts == Drop(old(attempts), 1)
      ensures sent == old(sent) + [r] && sleeps == old(sleeps)
    {
      a := AttemptAt(attempts, 0);
      attempts := Drop(attempts, 1);
      sent := sent + [r];
    }

    /** `time.sleep(seconds)`, recorded. */
    method Sleep(seconds: int)
      modifies this
      ensures sleeps == old(sleeps) + [seconds]
      ensures attempts == old(attempts) && sent == old(sent)
    {
      sleeps := sleeps + [seconds];
    }
  }

  // ---------------------------------------------------------------------------------------
  // fetch_page

  /** How a fetch ends: with a page, with every attempt used up, or with an exception that is not retried. */
  datatype FetchOutcome = Fetched(page: Page) | Exhausted | Raised

  /** `range(1, max_retries + 1)` has this many attempts. */
  function Tries(maxRetries: int): nat {
    if maxRetries > 0 then maxRetries else 0
  }

  /** The first attempt from `i` below `n` that does not meet a request error, or `n`. */
  function Settled(attempts: seq<Attempt>, i: nat, n: nat): (k: nat)
    requires i <= n
    ensures i <= k <= n
    ensures forall j :: i <= j < k ==> AttemptAt(attempts, j).RequestError?
    ensures k < n ==> !AttemptAt(attempts, k).RequestError?
    decreases n - i
  {
    if i == n || !AttemptAt(attempts, i).RequestError? then i else Settled(attempts, i + 1, n)
  }

  /** What `fetch_page` of fetch.py returns, given what its attempts meet. */
  function CliOutcome(attempts: seq<Attempt>, n: nat): FetchOutcome {
    var k := Settled(attempts, 0, n);
    if k == n then Exhausted
    else match AttemptAt(attempts, k)
      case Served(p) => Fetched(p)
      case _ => Raised
  }

  /** The sleeps after the first `k` failed attempts: `2 × attempt` each. */
  function Backoff(k: nat): (s: seq<int>)
    ensures |s| == k && forall i :: 0 <= i < k ==> s[i] == 2 * (i + 1)
  {
    seq(k, i => 2 * (i + 1))
  }

  function Repeat(r: Request, k: nat): (s: seq<Request>)
    ensures |s| == k && forall i :: 0 <= i < k ==> s[i] == r
  {
    seq(k, _ => r)
  }

  lemma {:induction false} BackoffStep(k: nat)
    ensures Backoff(k + 1) == Backoff(k) + [2 * (k + 1)]
  {
  }

  lemma {:induction false} RepeatStep(r: Request, k: nat)
    ensures Repeat(r, k + 1) == Repeat(r, k) + [r]
  {
  }

  /** The number of attempts a fetch makes: up to the one that settles it, all of them if none does. */
  function AttemptsMade(attempts: seq<Attempt>, n: nat): nat {
    var k := Settled(attempts, 0, n);
    if k < n then k + 1 else n
  }

  /** A fetch gives up exactly when each of its attempts meets a request error. */
  lemma {:induction false} ExhaustedIffAllRequestErrors(attempts: seq<Attempt>, n: nat)
    ensures CliOutcome(attempts, n) == Exhausted <==> forall j :: 0 <= j < n ==> AttemptAt(attempts, j).RequestError?
  {
  }

  /** A fetch that returns a page has used up at least the attempt that served it. */
  lemma {:induction false} FetchedConsumes(attempts: seq<Attempt>, n: nat)
    requires CliOutcome(attempts, n).Fetched?
    ensures 0 < AttemptsMade(attempts, n) <= |attempts|
    ensures |Drop(attempts, AttemptsMade(attempts, n))| < |attempts|
  {
  }

  /** The first page served before any other exception is the page fetched. */
  lemma {:induction false} FirstServedIsFetched(attempts: seq<Attempt>, n: nat, k: nat)
    requires k < n && AttemptAt(attempts, k).Served?
    requires forall j :: 0 <= j < k ==> AttemptAt(attempts, j).RequestError?
    ensures CliOutcome(attempts, n) == Fetched(AttemptAt(attempts, k).page)
    ensures AttemptsMade(attempts, n) == k + 1
  {
    var s := Settled(attempts, 0, n);
    assert !(s < k) && !(k < s);
  }

  function Sum(s: seq<int>): int {
    if s == [] then 0 else Sum(s[..|s| - 1]) + s[|s| - 1]
  }

  /** The backoff is linear: after `k` failed attempts the loop has slept `k (k + 1)` seconds. */
  lemma {:induction false} BackoffTotal(k: nat)
    ensures Sum(Backoff(k)) == k * (k + 1)
  {
    if k > 0 {
      BackoffTotal(k - 1);
      assert Backoff(k)[..k - 1] == Backoff(k - 1);
    }
  }

  /**
   * `fetch_page(session, url, page_num, prado_state, max_retries)` of fetch.py: up to
   * `max_retries` attempts of the same request. A served page is followed by the pause
   * between requests and returned; a request error is followed by a sleep of `2 × attempt`
   * seconds, the last attempt included; any other exception ends the fetch.
   */
  method FetchPage(net: Network, url: string, pageNum: int, token: Option<string>, maxRetries: int)
    returns (r: FetchOutcome)
    modifies net
    ensures r == CliOutcome(old(net.attempts), Tries(maxRetries))
    ensures net.sent == old(net.sent) + Repeat(RequestFor(url, pageNum, token), AttemptsMade(old(net.attempts), Tries(maxRetries)))
    ensures net.sleeps == old(net.sleeps) + Backoff(Settled(old(net.attempts), 0, Tries(maxRetries)))
      + (if r.Fetched? then [CliDelayBetweenRequests] else [])
    ensures net.attempts == Drop(old(net.attempts), AttemptsMade(old(net.attempts), Tries(maxRetries)))
    ensures r.Fetched? ==> |net.attempts| < |old(net.attempts)|
  {
    var n := Tries(maxRetries);
    var request := RequestFor(url, pageNum, token);
    ghost var start, sent0, sleeps0 := net.attempts, net.sent, net.sleeps;
    for attempt := 1 to n + 1
      invariant forall j :: 0 <= j < attempt - 1 ==> AttemptAt(start, j).RequestError?
      invariant net.sent == sent0 + Repeat(request, attempt - 1)
      invariant net.sleeps == sleeps0 + Backoff(attempt - 1)
      invariant net.attempts == Drop(start, attempt - 1)
    {
      DropStep(start, attempt - 1);
      RepeatStep(request, attempt - 1);
      var outcome := net.Send(request);
      match outcome
      case Served(p) =>
        FirstServedIsFetched(start, n, attempt - 1);
        net.Sleep(CliDelayBetweenRequests);
        return Fetched(p);
      case OtherError =>
        assert Settled(start, 0, n) == attempt - 1;
        return Raised;
      case RequestError =>
        net.Sleep(2 * attempt);
        BackoffStep(attempt - 1);
    }
    return Exhausted;
  }

  // ---------------------------------------------------------------------------------------
  // The page loop of both crawlers

  /** The tokens found on the pages, in order. */
  function TokensFound(pages: seq<Page>): (found: seq<Option<string>>)
    ensures |found| == |pages|
  {
    if pages == [] then [] else TokensFound(pages[..|pages| - 1]) + [ExtractPradoState(pages[|pages| - 1])]
  }

  lemma {:induction false} TokensFoundStep(pages: seq<Page>, p: Page)
    ensures TokensFound(pages + [p]) == TokensFound(pages) + [ExtractPradoState(p)]
  {
    assert (pages + [p])[..|pages|] == pages;
  }

  /** Each found token is the one its page carries. */
  lemma {:induction false} TokensFoundAt(pages: seq<Page>, i: nat)
    requires i < |pages|
    ensures TokensFound(pages)[i] == ExtractPradoState(pages[i])
  {
    if i < |pages| - 1 {
      TokensFoundAt(pages[..|pages| - 1], i);
    }
  }

  /** `max_pages and pages_scraped >= max_pages` */
  predicate MaxPagesReached(maxPages: Option<int>, pagesScraped: int) {
    maxPages.Some? && maxPages.value != 0 && pagesScraped >= maxPages.value
  }

  /** `total_pages and page >= total_pages` */
  predicate LastPageReached(totalPages: Option<int>, page: int) {
    totalPages.Some? && totalPages.value != 0 && page >= totalPages.value
  }
}
