/**
 * The field extractor of extraction.py: how one row of the result table becomes an
 * eleven-key announcement dictionary, and which rows of a page are kept.
 *
 * A row is given by the strings its XPath selections return (cell texts, text nodes,
 * anchor hrefs, hidden-input values); everything that follows the selection is modelled.
 */
module Extraction {
  import opened Wrappers
  import opened Text
  import opened Models
  import opened DateParsing
  import opened Links

  // ---------------------------------------------------------------------------------------
  // A row, as its selections see it

  /** `td[@headers="cons_ref"]`: its whole text, the first info bubble's text, the first category panel's text. */
  datatype RefCell = RefCell(text: string, infoBubble: Option<string>, categoryPanel: Option<string>)

  /**
   * `td[@headers="cons_intitule"]`: the text nodes of its `span.ref` elements, the text of the
   * first object panel and of the first buyer panel, and the text of the parent of the first
   * `strong` that names each of them (used when the panel is missing).
   */
  datatype TitleCell = TitleCell(
    refTexts: seq<string>,
    objectPanel: Option<string>,
    objectLabelParent: Option<string>,
    buyerPanel: Option<string>,
    buyerLabelParent: Option<string>)

  /** The place panel: its direct text nodes and its whole text. */
  datatype PlacePanel = PlacePanel(directTexts: seq<string>, text: string)

  /** `td[@headers="cons_lieuExe"]`: the text nodes of first-child spans, the place panel, its anchors' hrefs. */
  datatype PlaceCell = PlaceCell(firstSpanTexts: seq<string>, panel: Option<PlacePanel>, hrefs: seq<string>)

  /**
   * A `tr` of the results table: its four cells when present, the text of the deadline cell,
   * every anchor href of the row in document order, and the values of its `refCons` inputs.
   */
  datatype Row = Row(
    refCell: Option<RefCell>,
    titleCell: Option<TitleCell>,
    placeCell: Option<PlaceCell>,
    deadlineText: Option<string>,
    hrefs: seq<string>,
    refConsValues: seq<string>)

  /** A row of the tree; `Unreadable` stands for a row whose extraction raises. */
  datatype TreeRow = Readable(row: Row) | Unreadable

  const EmptyRow := Row(None, None, None, None, [], [])

  // ---------------------------------------------------------------------------------------
  // The pattern `\b([A-Z]{2,4})\b`

  predicate IsUpper(c: char) {
    'A' <= c <= 'Z'
  }

  /** Python's `\w` on Latin-1: letters, digits, `_`, and the Latin-1 letters and numerals. */
  predicate IsWordChar(c: char) {
    || ('a' <= c <= 'z') || ('A' <= c <= 'Z') || ('0' <= c <= '9') || c == '_'
    || c == '\U{aa}' || c == '\U{b2}' || c == '\U{b3}' || c == '\U{b5}' || c == '\U{b9}' || c == '\U{ba}'
    || ('\U{bc}' <= c <= '\U{be}')
    || ('\U{c0}' <= c <= '\U{ff}' && c != '\U{d7}' && c != '\U{f7}')
  }

  /** `w`, two to four capitals, stands at `p` in `s` with a word boundary on both sides. */
  predicate StandaloneCode(s: string, p: nat, w: string) {
    && 2 <= |w| <= 4
    && (forall k :: 0 <= k < |w| ==> IsUpper(w[k]))
    && OccursAt(s, p, w)
    && (p == 0 || !IsWordChar(s[p - 1]))
    && (p + |w| == |s| || !IsWordChar(s[p + |w|]))
  }

  /** The end of the run of capitals starting at `i`. */
  function UpperRunEnd(s: string, i: nat): (e: nat)
    requires i <= |s|
    ensures i <= e <= |s| && (forall k :: i <= k < e ==> IsUpper(s[k])) && (e == |s| || !IsUpper(s[e]))
    decreases |s| - i
  {
    if i < |s| && IsUpper(s[i]) then UpperRunEnd(s, i + 1) else i
  }

  /**
   * The pattern tried at `p`: after a boundary, the whole run of capitals must be two to four
   * long and be followed by a boundary (a shorter match would end before another capital).
   */
  function CodeAt(s: string, p: nat): (r: Option<string>)
    ensures r.Some? ==> StandaloneCode(s, p, r.value)
  {
    if p < |s| && IsUpper(s[p]) && (p == 0 || !IsWordChar(s[p - 1])) then
      var e := UpperRunEnd(s, p);
      if 2 <= e - p <= 4 && (e == |s| || !IsWordChar(s[e])) then Some(s[p..e]) else None
    else None
  }

  /** Every standalone code is matched where it stands. */
  lemma {:induction false} CodeAtComplete(s: string, p: nat, w: string)
    ensures StandaloneCode(s, p, w) ==> CodeAt(s, p) == Some(w)
  {
    if StandaloneCode(s, p, w) {
      assert s[p] == w[0];
      var e := p + |w|;
      assert forall k :: p <= k < e ==> IsUpper(s[k]) by {
        forall k | p <= k < e ensures IsUpper(s[k]) {
          assert s[k] == w[k - p];
        }
      }
      assert e == |s| || !IsUpper(s[e]);
      assert UpperRunEnd(s, p) == e;
    }
  }

  /** The matcher handed to the search: the pattern tried at each position. */
  function CodeMatcher(s: string): nat -> Option<string> {
    (p: nat) => CodeAt(s, p)
  }

  /** `re.search(r'\b([A-Z]{2,4})\b', s).group(1)` */
  function FindCode(s: string): (r: Option<string>)
    ensures r.Some? ==> 2 <= |r.value| <= 4 && forall k :: 0 <= k < |r.value| ==> IsUpper(r.value[k])
  {
    match Search(|s|, 0, CodeMatcher(s))
    case Some((_, code)) => Some(code)
    case None => None
  }

  /** The code found stands alone, and no standalone code starts earlier. */
  lemma {:induction false} FindCodeSound(s: string)
    requires FindCode(s).Some?
    ensures exists p: nat :: StandaloneCode(s, p, FindCode(s).value) && forall q: nat, w :: q < p ==> !StandaloneCode(s, q, w)
  {
    var (p, code) := Search(|s|, 0, CodeMatcher(s)).value;
    assert CodeMatcher(s)(p) == CodeAt(s, p);
    forall q: nat, w | q < p ensures !StandaloneCode(s, q, w) {
      assert CodeMatcher(s)(q) == CodeAt(s, q);
      CodeAtComplete(s, q, w);
    }
  }

  /** The leftmost standalone code is the one found. */
  lemma {:induction false} FindCodeLeftmost(s: string, p: nat, w: string)
    requires StandaloneCode(s, p, w)
    requires forall q: nat, v :: q < p ==> !StandaloneCode(s, q, v)
    ensures FindCode(s) == Some(w)
  {
    CodeAtComplete(s, p, w);
    forall q | 0 <= q < p ensures CodeMatcher(s)(q).None? {
      assert CodeMatcher(s)(q) == CodeAt(s, q);
    }
    assert CodeMatcher(s)(p) == Some(w);
    SearchFindsFirst(|s|, 0, CodeMatcher(s), p);
  }

  /** Without a standalone code nothing is found. */
  lemma {:induction false} FindCodeNone(s: string)
    requires forall p: nat, w :: !StandaloneCode(s, p, w)
    ensures FindCode(s) == None
  {
    forall p | 0 <= p < |s| ensures CodeMatcher(s)(p).None? {
      assert CodeMatcher(s)(p) == CodeAt(s, p);
      CodeAtComplete(s, p, CodeAt(s, p).GetOr([]));
    }
  }

  // ---------------------------------------------------------------------------------------
  // procedure, categorie, datePublication

  /** The first word of the first info bubble, when its stripped text is not empty. */
  function BubbleWord(cell: RefCell): (r: Option<string>)
    ensures r.Some? ==> r.value != "" && NoSpace(r.value)
  {
    match cell.infoBubble
    case Some(b) =>
      var t := Strip(b);
      if t != "" then WordsOfStripped(t); Some(Words(t)[0]) else None
    case None => None
  }

  lemma {:induction false} WordsOfStripped(t: string)
    requires t != "" && IsStripped(t)
    ensures Words(t) != []
  {
  }

  /**
   * `procedure`: the bubble's first word; when there is none, or it is the text `N/A`
   * itself, the leftmost standalone code of the cell text; otherwise `N/A`.
   */
  function Procedure(c: Option<RefCell>): (r: string)
    ensures r != "" && NoSpace(r)
    ensures c.None? ==> r == NotAvailable
  {
    match c
    case None => NotAvailable
    case Some(cell) =>
      var fromBubble := BubbleWord(cell).GetOr(NotAvailable);
      if fromBubble != NotAvailable then fromBubble
      else match FindCode(cell.text)
        case Some(code) => code
        case None => NotAvailable
  }

  /** A bubble starting with a word other than `N/A` gives that word. */
  lemma {:induction false} ProcedureFromBubble(cell: RefCell, w: string, rest: string)
    requires w != "" && NoSpace(w) && w != NotAvailable
    requires rest != "" && IsStripped(rest)
    requires cell.infoBubble == Some(w + " " + rest)
    ensures Procedure(Some(cell)) == w
  {
    BubbleWordOf(cell, w, rest);
  }

  lemma {:induction false} BubbleWordOf(cell: RefCell, w: string, rest: string)
    requires w != "" && NoSpace(w)
    requires rest != "" && IsStripped(rest)
    requires cell.infoBubble == Some(w + " " + rest)
    ensures BubbleWord(cell) == Some(w)
  {
    FirstWordOf(w, rest);
  }

  lemma {:induction false} FirstWordOf(w: string, rest: string)
    requires w != "" && NoSpace(w)
    requires rest != "" && IsStripped(rest)
    ensures var b := w + " " + rest; Strip(b) == b && Words(b) != [] && Words(b)[0] == w
  {
    var b := w + " " + rest;
    assert b[0] == w[0] && b[|b| - 1] == rest[|rest| - 1];
    StrippedIsFixpoint(b);
    WordsOfWordThenSpace(w, rest);
  }

  /** Without a bubble word, the first standalone code of the cell text is taken. */
  lemma {:induction false} ProcedureFromCode(cell: RefCell, p: nat, w: string)
    requires BubbleWord(cell).None?
    requires StandaloneCode(cell.text, p, w)
    requires forall q: nat, v :: q < p ==> !StandaloneCode(cell.text, q, v)
    ensures Procedure(Some(cell)) == w
  {
    FindCodeLeftmost(cell.text, p, w);
  }

  /** Without a bubble word and without a standalone code, `procedure` stays `N/A`. */
  lemma {:induction false} ProcedureUnknown(cell: RefCell)
    requires BubbleWord(cell).None?
    requires forall p: nat, w :: !StandaloneCode(cell.text, p, w)
    ensures Procedure(Some(cell)) == NotAvailable
  {
    FindCodeNone(cell.text);
  }

  /** `categorie`: the stripped text of the category panel. */
  function Category(c: Option<RefCell>): (r: string)
    ensures IsStripped(r)
    ensures c.None? || c.value.categoryPanel.None? ==> r == NotAvailable
  {
    if c.Some? && c.value.categoryPanel.Some? then Strip(c.value.categoryPanel.value) else NotAvailable
  }

  /** `datePublication`: the first date found in the text of the reference cell. */
  function PublicationDate(c: Option<RefCell>): (r: Option<DateTime>)
    ensures r.Some? ==> c.Some? && ValidDateTime(r.value)
  {
    match c
    case Some(cell) => ParseDate(cell.text)
    case None => None
  }

  // ---------------------------------------------------------------------------------------
  // reference, objet, acheteurPublic

  /** `reference`: the first `span.ref` text node, stripped (possibly empty). */
  function Reference(c: Option<TitleCell>): (r: string)
    ensures IsStripped(r)
    ensures c.None? || c.value.refTexts == [] ==> r == NotAvailable
  {
    if c.Some? && c.value.refTexts != [] then Strip(c.value.refTexts[0]) else NotAvailable
  }

  /**
   * Where the label `\s*w1\s*w2…\s*:?\s*` (each `wi` lower-case, matched ignoring case)
   * ends when it is found at `i`.
   */
  function LabelEnd(t: string, i: nat, words: seq<string>): (e: Option<nat>)
    requires i <= |t|
    ensures e.Some? ==> i <= e.value <= |t|
    ensures e.Some? ==> e.value == |t| || !IsSpace(t[e.value])
    decreases |words|
  {
    var j := SkipSpaces(t, i);
    if words == [] then
      var k := if j < |t| && t[j] == ':' then j + 1 else j;
      Some(SkipSpaces(t, k))
    else if StartsWithIgnoreCase(t[j..], words[0]) then LabelEnd(t, j + |words[0]|, words[1..])
    else None
  }

  /** `re.sub(label, '', t, flags=re.IGNORECASE)` for a label anchored with `^`. */
  function RemoveLabel(t: string, words: seq<string>): (r: string)
    ensures |r| <= |t| && r == t[|t| - |r|..]
  {
    match LabelEnd(t, 0, words)
    case Some(e) => t[e..]
    case None => t
  }

  const ObjectLabel := ["objet"]
  const BuyerLabel := ["acheteur", "public"]

  /** The label removed, the rest stripped and its blanks collapsed; `None` when nothing is left. */
  function Unlabelled(text: string, labelWords: seq<string>): (r: Option<string>)
    ensures r.Some? ==> r.value != "" && IsStripped(r.value)
  {
    var t := Strip(RemoveLabel(text, labelWords));
    if t != "" then
      CollapseSpacesOfStripped(t);
      Some(CollapseSpaces(t))
    else None
  }

  /** Collapsing the blanks of a non-empty stripped text leaves a non-empty stripped text. */
  lemma {:induction false} CollapseSpacesOfStripped(t: string)
    requires t != "" && IsStripped(t)
    ensures CollapseSpaces(t) != "" && IsStripped(CollapseSpaces(t))
  {
    WordsOfStripped(t);
    JoinWordsEnds(Words(t));
  }

  /**
   * `objet` and `acheteurPublic`: the panel's text when the panel exists (`N/A` if nothing
   * is left of it), else the text around the label, else `N/A`.
   */
  function LabelledField(panel: Option<string>, labelParent: Option<string>, labelWords: seq<string>): (r: string)
    ensures r != "" && IsStripped(r)
    ensures panel.None? && labelParent.None? ==> r == NotAvailable
  {
    match panel
    case Some(p) => Unlabelled(Strip(p), labelWords).GetOr(NotAvailable)
    case None =>
      match labelParent
      case Some(q) => Unlabelled(q, labelWords).GetOr(NotAvailable)
      case None => NotAvailable
  }

  function Object(c: Option<TitleCell>): (r: string)
    ensures r != "" && IsStripped(r)
  {
    match c
    case Some(cell) => LabelledField(cell.objectPanel, cell.objectLabelParent, ObjectLabel)
    case None => NotAvailable
  }

  function Buyer(c: Option<TitleCell>): (r: string)
    ensures r != "" && IsStripped(r)
  {
    match c
    case Some(cell) => LabelledField(cell.buyerPanel, cell.buyerLabelParent, BuyerLabel)
    case None => NotAvailable
  }

  /** A panel reading `Objet : ` followed by text gives that text with its blanks collapsed. */
  lemma {:induction false} ObjectLabelRemoved(body: string)
    requires body != "" && IsStripped(body)
    ensures LabelledField(Some("Objet : " + body), None, ObjectLabel) == CollapseSpaces(body)
  {
    var t := "Objet : " + body;
    ObjectPanelStripped(t, body);
    ObjectLabelEnd(t, body);
    UnlabelledBody(t, body, ObjectLabel);
  }

  lemma {:induction false} ObjectPanelStripped(t: string, body: string)
    requires body != "" && IsStripped(body)
    requires t == "Objet : " + body
    ensures Strip(t) == t
  {
    assert t[0] == 'O' && t[|t| - 1] == body[|body| - 1];
    StrippedIsFixpoint(t);
  }

  lemma {:induction false} UnlabelledBody(t: string, body: string, labelWords: seq<string>)
    requires body != "" && IsStripped(body)
    requires RemoveLabel(t, labelWords) == body
    ensures Unlabelled(t, labelWords) == Some(CollapseSpaces(body))
  {
    StrippedIsFixpoint(body);
  }

  lemma {:induction false} ObjectLabelEnd(t: string, body: string)
    requires body != "" && !IsSpace(body[0])
    requires t == "Objet : " + body
    ensures RemoveLabel(t, ObjectLabel) == body
  {
    assert SkipSpaces(t, 0) == 0;
    ObjectWordAtStart(t);
    assert LabelEnd(t, 0, ObjectLabel) == LabelEnd(t, 5, []);
    assert t[5] == ' ' && t[6] == ':';
    SkipSpacesTo(t, 5, 6);
    assert t[7] == ' ' && t[8] == body[0];
    SkipSpacesTo(t, 7, 8);
  }

  lemma {:induction false} ObjectWordAtStart(t: string)
    requires |t| >= 5 && t[..5] == "Objet"
    ensures StartsWithIgnoreCase(t[0..], "objet")
  {
    assert t[0..][..5] == "Objet";
    assert Lower("Objet") == "objet";
  }

  /** Text without the label is kept whole, only its blanks collapsed. */
  lemma {:induction false} UnlabelledTextKept(text: string, labelWords: seq<string>)
    requires labelWords != [] && Strip(text) != ""
    requires !StartsWithIgnoreCase(Strip(text), labelWords[0])
    ensures LabelledField(Some(text), None, labelWords) == CollapseSpaces(Strip(text))
  {
    var t := Strip(text);
    StripIdempotent(text);
    assert SkipSpaces(t, 0) == 0;
    assert t[0..] == t;
  }

  // ---------------------------------------------------------------------------------------
  // lots, lieuExecution

  /** `lots`: the first first-child span text, stripped, or `-` when it is missing or blank. */
  function Lots(c: Option<PlaceCell>): (r: string)
    ensures r != "" && IsStripped(r)
    ensures r == NoLots || (c.Some? && c.value.firstSpanTexts != [] && r == Strip(c.value.firstSpanTexts[0]))
    ensures c.None? || c.value.firstSpanTexts == [] || Strip(c.value.firstSpanTexts[0]) == "" ==> r == NoLots
  {
    if c.Some? && c.value.firstSpanTexts != [] then
      var candidate := Strip(c.value.firstSpanTexts[0]);
      if candidate != "" then candidate else NoLots
    else NoLots
  }

  /** `[t.strip() for t in ts if t.strip()]` */
  function NonBlank(ts: seq<string>): (r: seq<string>)
    ensures |r| <= |ts|
    ensures forall i :: 0 <= i < |r| ==> r[i] != "" && IsStripped(r[i])
  {
    if ts == [] then []
    else (if Strip(ts[0]) != "" then [Strip(ts[0])] else []) + NonBlank(ts[1..])
  }

  /** Nothing is left exactly when every text is blank. */
  lemma {:induction false} NonBlankEmpty(ts: seq<string>)
    ensures NonBlank(ts) == [] <==> forall i :: 0 <= i < |ts| ==> Strip(ts[i]) == ""
  {
    if ts != [] {
      NonBlankEmpty(ts[1..]);
      assert forall i :: 1 <= i < |ts| ==> ts[i] == ts[1..][i - 1];
    }
  }

  /** `[ln.strip() for ln in lines if ln.strip() and not ln.strip().startswith("...")]` */
  function KeptLines(lines: seq<string>): (r: seq<string>)
    ensures |r| <= |lines|
    ensures forall i :: 0 <= i < |r| ==> r[i] != "" && IsStripped(r[i]) && !StartsWith(r[i], "...")
  {
    if lines == [] then []
    else
      var t := Strip(lines[0]);
      (if t != "" && !StartsWith(t, "...") then [t] else []) + KeptLines(lines[1..])
  }

  /** Joining non-empty stripped parts, with any separator, gives a non-empty stripped text. */
  lemma {:induction false} JoinStripped(parts: seq<string>, sep: string)
    requires parts != []
    requires forall i :: 0 <= i < |parts| ==> parts[i] != "" && IsStripped(parts[i])
    ensures Join(parts, sep) != "" && IsStripped(Join(parts, sep))
  {
    if |parts| > 1 {
      JoinStripped(parts[1..], sep);
      var rest := Join(parts[1..], sep);
      var r := parts[0] + sep + rest;
      assert Join(parts, sep) == r;
      assert r[0] == parts[0][0];
      assert r[|r| - 1] == rest[|rest| - 1];
    }
  }

  /**
   * `lieuExecution`: the non-blank direct text nodes of the panel joined with `", "`; when
   * there are none, the panel's lines that are not blank and do not start with `...`,
   * joined with a space; `N/A` when that is empty too, or when there is no panel.
   */
  function Place(c: Option<PlaceCell>): (r: string)
    ensures r != "" && IsStripped(r)
    ensures c.None? || c.value.panel.None? ==> r == NotAvailable
  {
    if c.Some? && c.value.panel.Some? then
      var panel := c.value.panel.value;
      var direct := NonBlank(panel.directTexts);
      if direct != [] then
        JoinStripped(direct, ", ");
        Join(direct, ", ")
      else
        var lines := KeptLines(SplitLines(Strip(panel.text)));
        var cleaned := Join(lines, " ");
        if cleaned != "" then
          JoinStripped(lines, " ");
          cleaned
        else NotAvailable
    else NotAvailable
  }

  /** Direct text nodes win: the rest of the panel's text does not matter then. */
  lemma {:induction false} PlacePrefersDirectTexts(cell: PlaceCell, otherText: string)
    requires cell.panel.Some?
    requires exists i :: 0 <= i < |cell.panel.value.directTexts| && Strip(cell.panel.value.directTexts[i]) != ""
    ensures Place(Some(cell)) == Join(NonBlank(cell.panel.value.directTexts), ", ")
    ensures Place(Some(cell)) == Place(Some(cell.(panel := Some(cell.panel.value.(text := otherText)))))
  {
    var texts := cell.panel.value.directTexts;
    NonBlankEmpty(texts);
    var direct := NonBlank(texts);
    assert direct != [];
    var other := cell.(panel := Some(cell.panel.value.(text := otherText)));
    assert other.panel.value.directTexts == texts;
  }

  /** A panel without direct text, whose text is a single kept line, reads as that line. */
  lemma {:induction false} PlaceOfSingleLine(cell: PlaceCell, line: string)
    requires cell.panel.Some? && NonBlank(cell.panel.value.directTexts) == []
    requires line != "" && IsStripped(line) && !StartsWith(line, "...")
    requires forall k :: 0 <= k < |line| ==> !IsLineBreak(line[k])
    requires cell.panel.value.text == line
    ensures Place(Some(cell)) == line
  {
    StrippedIsFixpoint(line);
    assert IndexOfLineBreak(line) == |line|;
    assert SplitLines(line) == [line];
    StrippedIsFixpoint(line);
    assert KeptLines([line]) == [line];
  }

  // ---------------------------------------------------------------------------------------
  // dateLimite, lienDeConsultation

  /** `dateLimite`: the first date found in the text of the deadline cell. */
  function Deadline(text: Option<string>): (r: Option<DateTime>)
    ensures r.Some? ==> text.Some? && ValidDateTime(r.value)
  {
    match text
    case Some(t) => ParseDate(t)
    case None => None
  }

  /** `lienDeConsultation`: the first `popUp` link of the place cell, else the row's `refConsultation` link. */
  function Consultation(row: Row): (r: string)
    ensures r != ""
  {
    var cellHrefs := match row.placeCell case Some(cell) => Some(cell.hrefs) case None => None;
    var r := ConsultationLink(cellHrefs, row.hrefs);
    assert r != "" by {
      var fromCell := match cellHrefs
        case Some(hs) => (match FirstContaining(hs, "popUp") case Some(h) => h case None => "")
        case None => "";
      var link := if fromCell != "" then fromCell
        else match FirstContaining(row.hrefs, "refConsultation") case Some(h) => h case None => "";
      ChosenLinkNotBlank(cellHrefs, row.hrefs);
    }
    r
  }

  /** A chosen link contains `popUp` or `refConsultation`, so it is never blank. */
  lemma {:induction false} ChosenLinkNotBlank(cellHrefs: Option<seq<string>>, rowHrefs: seq<string>)
    ensures ConsultationLink(cellHrefs, rowHrefs) != ""
  {
    var fromCell := match cellHrefs
      case Some(hs) => (match FirstContaining(hs, "popUp") case Some(h) => h case None => "")
      case None => "";
    var link := if fromCell != "" then fromCell
      else match FirstContaining(rowHrefs, "refConsultation") case Some(h) => h case None => "";
    assert link == "" || Contains(link, "popUp") || Contains(link, "refConsultation");
    if link != "" {
      NotBlankWhenContains(link, if Contains(link, "popUp") then "popUp" else "refConsultation");
    }
  }

  /** A text containing a word without blanks does not strip to nothing. */
  lemma {:induction false} NotBlankWhenContains(s: string, sub: string)
    requires sub != "" && NoSpace(sub) && Contains(s, sub)
    ensures Strip(s) != ""
  {
    ContainsChar(s, sub, 0);
    var k :| 0 <= k < |s| && s[k] == sub[0];
    NonBlankStrip(s, k);
  }

  /** Stripping keeps every non-blank character. */
  lemma {:induction false} NonBlankStrip(s: string, k: nat)
    requires k < |s| && !IsSpace(s[k])
    ensures Strip(s) != ""
  {
    var r := Strip(s);
    StripIsSliceBetweenBlanks(s);
    var i, j :| 0 <= i <= j <= |s| && r == s[i..j] && AllSpace(s[..i]) && AllSpace(s[j..]);
    assert forall m :: 0 <= m < i ==> IsSpace(s[m]) by {
      forall m | 0 <= m < i ensures IsSpace(s[m]) { assert s[m] == s[..i][m]; }
    }
    assert forall m :: j <= m < |s| ==> IsSpace(s[m]) by {
      forall m | j <= m < |s| ensures IsSpace(s[m]) { assert s[m] == s[j..][m - j]; }
    }
  }

  // ---------------------------------------------------------------------------------------
  // The whole record

  /** The announcement `extract_announcement` returns for a row. */
  function ExtractRecord(row: Row): (a: Announcement)
    ensures a.procedure != "" && NoSpace(a.procedure)
    ensures a.objet != "" && a.acheteurPublic != "" && a.lots != "" && a.lieuExecution != ""
    ensures a.lienDeConsultation != ""
    ensures a.datePublication.Some? ==> ValidDateTime(a.datePublication.value)
    ensures a.dateLimite.Some? ==> ValidDateTime(a.dateLimite.value)
    ensures forall i :: 0 <= i < |a.piecesJointes| ==> StartsWith(a.piecesJointes[i], "http")
    ensures row.refCell.None? ==> a.procedure == NotAvailable && a.categorie == NotAvailable && a.datePublication.None?
    ensures row.titleCell.None? ==> a.reference == NotAvailable && a.objet == NotAvailable && a.acheteurPublic == NotAvailable
    ensures row.placeCell.None? ==> a.lots == NoLots && a.lieuExecution == NotAvailable
    ensures row.deadlineText.None? ==> a.dateLimite.None?
  {
    Announcement(
      Procedure(row.refCell),
      Category(row.refCell),
      Reference(row.titleCell),
      Object(row.titleCell),
      Buyer(row.titleCell),
      Lots(row.placeCell),
      Place(row.placeCell),
      Consultation(row),
      Attachments(row.hrefs),
      PublicationDate(row.refCell),
      Deadline(row.deadlineText))
  }

  /** A row with none of the four cells and no links gives exactly the record defaults. */
  lemma {:induction false} EmptyRowDefaults()
    ensures ExtractRecord(EmptyRow) == DefaultAnnouncement
  {
    assert FirstContaining([], "refConsultation") == None;
    assert NormalizePopupLink("") == NotAvailable;
  }

  // ---------------------------------------------------------------------------------------
  // Filling the dictionary

  /** The defaults dictionary, in its order. */
  const ExtractorDefaults: seq<(string, FieldValue)> := [
    ("procedure", FieldValue.Text(NotAvailable)),
    ("categorie", FieldValue.Text(NotAvailable)),
    ("datePublication", Null),
    ("reference", FieldValue.Text(NotAvailable)),
    ("objet", FieldValue.Text(NotAvailable)),
    ("acheteurPublic", FieldValue.Text(NotAvailable)),
    ("lots", FieldValue.Text(NoLots)),
    ("lieuExecution", FieldValue.Text(NotAvailable)),
    ("dateLimite", Null),
    ("piecesJointes", Links([])),
    ("lienDeConsultation", FieldValue.Text(NotAvailable))]

  function KeysOf(items: seq<(string, FieldValue)>): set<string> {
    set i | 0 <= i < |items| :: items[i].0
  }

  predicate DistinctKeys(items: seq<(string, FieldValue)>) {
    forall i, j :: 0 <= i < j < |items| ==> items[i].0 != items[j].0
  }

  /** The extractor's defaults are the record defaults of the API model, key for key. */
  lemma {:induction false} ExtractorDefaultsAreModelDefaults()
    ensures KeysOf(ExtractorDefaults) == FieldNames
    ensures forall i :: 0 <= i < |ExtractorDefaults| ==>
      AsDoc(DefaultAnnouncement)[ExtractorDefaults[i].0] == ExtractorDefaults[i].1
  {
    var d := ExtractorDefaults;
    assert KeysOf(d) == {d[0].0, d[1].0, d[2].0, d[3].0, d[4].0, d[5].0, d[6].0, d[7].0, d[8].0, d[9].0, d[10].0};
    var m := AsDoc(DefaultAnnouncement);
    forall i | 0 <= i < |d| ensures m[d[i].0] == d[i].1 {
      if i == 0 { assert m["procedure"] == d[0].1; }
      else if i == 1 { assert m["categorie"] == d[1].1; }
      else if i == 2 { assert m["datePublication"] == d[2].1; }
      else if i == 3 { assert m["reference"] == d[3].1; }
      else if i == 4 { assert m["objet"] == d[4].1; }
      else if i == 5 { assert m["acheteurPublic"] == d[5].1; }
      else if i == 6 { assert m["lots"] == d[6].1; }
      else if i == 7 { assert m["lieuExecution"] == d[7].1; }
      else if i == 8 { assert m["dateLimite"] == d[8].1; }
      else if i == 9 { assert m["piecesJointes"] == d[9].1; }
      else { assert m["lienDeConsultation"] == d[10].1; }
    }
  }

  lemma {:induction false} ExtractorDefaultsDistinct()
    ensures DistinctKeys(ExtractorDefaults)
  {
  }

  /**
   * The defaults loop: each key of `defaults` that is missing or `None` in `ann` gets its
   * default; every other entry is kept.
   */
  method FillDefaults(ann: Doc, defaults: seq<(string, FieldValue)>) returns (r: Doc)
    requires DistinctKeys(defaults)
    ensures r.Keys == ann.Keys + KeysOf(defaults)
    ensures forall k :: k in ann && k !in KeysOf(defaults) ==> r[k] == ann[k]
    ensures forall i :: 0 <= i < |defaults| ==>
      r[defaults[i].0] == (if defaults[i].0 !in ann || ann[defaults[i].0].Null? then defaults[i].1 else ann[defaults[i].0])
  {
    r := ann;
    for i := 0 to |defaults|
      invariant r.Keys == ann.Keys + KeysOf(defaults[..i])
      invariant forall k :: k in ann && k !in KeysOf(defaults[..i]) ==> r[k] == ann[k]
      invariant forall j :: 0 <= j < i ==>
        r[defaults[j].0] == (if defaults[j].0 !in ann || ann[defaults[j].0].Null? then defaults[j].1 else ann[defaults[j].0])
    {
      var (k, v) := defaults[i];
      assert KeysOf(defaults[..i + 1]) == KeysOf(defaults[..i]) + {k} by {
        assert forall j :: 0 <= j < i ==> defaults[..i + 1][j] == defaults[..i][j];
        assert defaults[..i + 1][i] == defaults[i];
      }
      assert k !in KeysOf(defaults[..i]);
      if k !in r || r[k].Null? {
        r := r[k := v];
      }
    }
    assert defaults[..|defaults|] == defaults;
  }

  /** On a record's dictionary the defaults loop changes nothing: only the dates can be `None`, and their default is `None`. */
  lemma {:induction false} DefaultsKeepRecord(a: Announcement, r: Doc)
    requires r.Keys == AsDoc(a).Keys + KeysOf(ExtractorDefaults)
    requires forall i :: 0 <= i < |ExtractorDefaults| ==>
      var k := ExtractorDefaults[i].0;
      r[k] == (if k !in AsDoc(a) || AsDoc(a)[k].Null? then ExtractorDefaults[i].1 else AsDoc(a)[k])
    ensures r == AsDoc(a)
  {
    ExtractorDefaultsAreModelDefaults();
    RecordNullsHaveNullDefaults(a);
    FilledKeepsDoc(AsDoc(a), ExtractorDefaults, r);
  }

  /** Filling defaults into a dictionary that has every key, and `None` only where the default is `None`, changes nothing. */
  lemma {:induction false} FilledKeepsDoc(d: Doc, defaults: seq<(string, FieldValue)>, r: Doc)
    requires d.Keys == KeysOf(defaults)
    requires r.Keys == d.Keys + KeysOf(defaults)
    requires forall i :: 0 <= i < |defaults| ==> d[defaults[i].0].Null? ==> defaults[i].1 == Null
    requires forall i :: 0 <= i < |defaults| ==>
      var k := defaults[i].0;
      r[k] == (if k !in d || d[k].Null? then defaults[i].1 else d[k])
    ensures r == d
  {
    forall k | k in d ensures r[k] == d[k] {
      var i :| 0 <= i < |defaults| && defaults[i].0 == k;
    }
  }

  /** Only the two dates of a record can be `None`, and their defaults are `None` as well. */
  lemma {:induction false} RecordNullsHaveNullDefaults(a: Announcement)
    ensures forall i :: 0 <= i < |ExtractorDefaults| ==>
      AsDoc(a)[ExtractorDefaults[i].0].Null? ==> ExtractorDefaults[i].1 == Null
  {
    var d := AsDoc(a);
    forall i | 0 <= i < |ExtractorDefaults| && d[ExtractorDefaults[i].0].Null?
      ensures ExtractorDefaults[i].1 == Null
    {
      assert ExtractorDefaults[i].0 in {"datePublication", "dateLimite"};
    }
  }

  /** The dictionary filled key by key in the extractor's order is the record's dictionary. */
  lemma {:induction false} FilledInOrder(a: Announcement)
    ensures AsDoc(a) ==
      map[]["procedure" := FieldValue.Text(a.procedure)]["categorie" := FieldValue.Text(a.categorie)]
        ["datePublication" := StampOrNull(a.datePublication)]["reference" := FieldValue.Text(a.reference)]
        ["objet" := FieldValue.Text(a.objet)]["acheteurPublic" := FieldValue.Text(a.acheteurPublic)]
        ["lots" := FieldValue.Text(a.lots)]["lieuExecution" := FieldValue.Text(a.lieuExecution)]
        ["dateLimite" := StampOrNull(a.dateLimite)]["piecesJointes" := Links(a.piecesJointes)]
        ["lienDeConsultation" := FieldValue.Text(a.lienDeConsultation)]
  {
  }

  /** The attachments loop of `extract_announcement`: matching links completed and appended in order. */
  method CollectAttachments(hrefs: seq<string>) returns (pieces: seq<string>)
    ensures pieces == Attachments(hrefs)
  {
    pieces := [];
    for i := 0 to |hrefs|
      invariant pieces == Attachments(hrefs[..i])
    {
      assert hrefs[..i + 1][..i] == hrefs[..i];
      var h := hrefs[i];
      if IsAttachmentLink(h) {
        pieces := pieces + [AbsoluteAttachment(h)];
      }
    }
    assert hrefs[..|hrefs|] == hrefs;
  }

  /** `extract_announcement(row)`: the dictionary filled field by field, then patched with the defaults. */
  method ExtractAnnouncement(row: Row) returns (ann: Doc)
    ensures ann == AsDoc(ExtractRecord(row))
  {
    var procedure, category, published := Procedure(row.refCell), Category(row.refCell), PublicationDate(row.refCell);
    var reference, obj, buyer := Reference(row.titleCell), Object(row.titleCell), Buyer(row.titleCell);
    var lots, place := Lots(row.placeCell), Place(row.placeCell);
    var deadline := Deadline(row.deadlineText);
    ann := map[];
    ann := ann["procedure" := FieldValue.Text(procedure)];
    ann := ann["categorie" := FieldValue.Text(category)];
    ann := ann["datePublication" := StampOrNull(published)];
    ann := ann["reference" := FieldValue.Text(reference)];
    ann := ann["objet" := FieldValue.Text(obj)];
    ann := ann["acheteurPublic" := FieldValue.Text(buyer)];
    ann := ann["lots" := FieldValue.Text(lots)];
    ann := ann["lieuExecution" := FieldValue.Text(place)];
    ann := ann["dateLimite" := StampOrNull(deadline)];
    var pieces := CollectAttachments(row.hrefs);
    ann := ann["piecesJointes" := Links(pieces)];
    var link := Consultation(row);
    ann := ann["lienDeConsultation" := FieldValue.Text(link)];
    ghost var record := Announcement(procedure, category, reference, obj, buyer, lots, place, link, pieces, published, deadline);
    assert record == ExtractRecord(row);
    FilledInOrder(record);
    ExtractorDefaultsDistinct();
    ann := FillDefaults(ann, ExtractorDefaults);
    DefaultsKeepRecord(record, ann);
  }

  // ---------------------------------------------------------------------------------------
  // Rows kept from a page

  /** The inclusion rule: a usable reference or object, or a `refCons` hidden input. */
  predicate Keeps(a: Announcement, refConsValues: seq<string>)
    ensures refConsValues != [] ==> Keeps(a, refConsValues)
    ensures !Keeps(a, refConsValues) ==> a.reference in {"", NotAvailable} && a.objet in {"", NotAvailable}
  {
    || (a.reference != "" && a.reference != NotAvailable)
    || (a.objet != "" && a.objet != NotAvailable)
    || refConsValues != []
  }

  /** What a row of the tree adds to the result: its dictionary when it is readable and kept. */
  function RowResult(r: TreeRow): (docs: seq<Doc>)
    ensures |docs| <= 1
  {
    match r
    case Unreadable => []
    case Readable(row) =>
      var a := ExtractRecord(row);
      if Keeps(a, row.refConsValues) then [AsDoc(a)] else []
  }

  /** The dictionaries of the kept rows, in row order; unreadable rows are skipped. */
  function KeptDocs(rows: seq<TreeRow>): (docs: seq<Doc>)
    ensures |docs| <= |rows|
  {
    if rows == [] then [] else KeptDocs(rows[..|rows| - 1]) + RowResult(rows[|rows| - 1])
  }

  /** Extracting two stretches of rows one after the other gives the two results concatenated. */
  lemma {:induction false} KeptDocsAppend(a: seq<TreeRow>, b: seq<TreeRow>)
    ensures KeptDocs(a + b) == KeptDocs(a) + KeptDocs(b)
    decreases |b|
  {
    if b == [] {
      assert a + b == a;
    } else {
      var init := b[..|b| - 1];
      assert (a + b)[..|a + b| - 1] == a + init;
      KeptDocsAppend(a, init);
    }
  }

  /** The row results side by side, one entry per row. */
  function Results(rows: seq<TreeRow>): (parts: seq<seq<Doc>>)
    ensures |parts| == |rows|
    ensures forall j :: 0 <= j < |rows| ==> parts[j] == RowResult(rows[j])
  {
    seq(|rows|, j requires 0 <= j < |rows| => RowResult(rows[j]))
  }

  /** The parts concatenated, last part last. */
  function Concat(parts: seq<seq<Doc>>): seq<Doc> {
    if parts == [] then [] else Concat(parts[..|parts| - 1]) + parts[|parts| - 1]
  }

  lemma {:induction false} KeptDocsConcat(rows: seq<TreeRow>)
    ensures KeptDocs(rows) == Concat(Results(rows))
  {
    if rows != [] {
      var init := rows[..|rows| - 1];
      KeptDocsConcat(init);
      assert Results(rows)[..|rows| - 1] == Results(init);
    }
  }

  /** Concatenating parts of at most one element each: every element is a whole part, and every non-empty part is there. */
  lemma {:induction false} ConcatOfSingletons(parts: seq<seq<Doc>>)
    requires forall j :: 0 <= j < |parts| ==> |parts[j]| <= 1
    ensures forall i :: 0 <= i < |Concat(parts)| ==> exists j :: 0 <= j < |parts| && parts[j] == [Concat(parts)[i]]
    ensures forall j :: 0 <= j < |parts| && parts[j] != [] ==> parts[j][0] in Concat(parts)
  {
    if parts != [] {
      var init := parts[..|parts| - 1];
      var last := parts[|parts| - 1];
      ConcatOfSingletons(init);
      var all := Concat(parts);
      assert all == Concat(init) + last;
      forall i | 0 <= i < |all| ensures exists j :: 0 <= j < |parts| && parts[j] == [all[i]] {
        if i < |Concat(init)| {
          var j :| 0 <= j < |init| && init[j] == [Concat(init)[i]];
          assert parts[j] == init[j] && all[i] == Concat(init)[i];
        } else {
          assert |parts[|parts| - 1]| == 1;
          assert all[i] == last[0];
          assert parts[|parts| - 1] == [all[i]];
        }
      }
      forall j | 0 <= j < |parts| && parts[j] != [] ensures parts[j][0] in all {
        if j < |init| {
          assert parts[j] == init[j];
        } else {
          assert all[|Concat(init)|] == last[0];
        }
      }
    } else {
      assert Concat(parts) == [];
    }
  }

  /** Every dictionary in the result is that of a kept row, and every kept row has its dictionary there. */
  lemma {:induction false} KeptDocsAreKeptRows(rows: seq<TreeRow>)
    ensures forall i :: 0 <= i < |KeptDocs(rows)| ==>
      exists j :: 0 <= j < |rows| && RowResult(rows[j]) == [KeptDocs(rows)[i]]
    ensures forall j :: 0 <= j < |rows| && RowResult(rows[j]) != [] ==> RowResult(rows[j])[0] in KeptDocs(rows)
  {
    KeptDocsConcat(rows);
    ConcatOfSingletons(Results(rows));
  }

  lemma {:induction false} KeptDocsStep(rows: seq<TreeRow>, i: nat)
    requires i < |rows|
    ensures KeptDocs(rows[..i + 1]) == KeptDocs(rows[..i]) + RowResult(rows[i])
  {
    assert rows[..i + 1][..i] == rows[..i];
  }

  /** The row filter read off the record's dictionary, as the loop tests it. */
  lemma {:induction false} KeepsOnDoc(a: Announcement, refConsValues: seq<string>)
    ensures "reference" in AsDoc(a) && "objet" in AsDoc(a)
    ensures Keeps(a, refConsValues) <==>
      || (Truthy(AsDoc(a)["reference"]) && AsDoc(a)["reference"] != FieldValue.Text(NotAvailable))
      || (Truthy(AsDoc(a)["objet"]) && AsDoc(a)["objet"] != FieldValue.Text(NotAvailable))
      || refConsValues != []
  {
  }

  /** `extract_announcements_from_tree`: the rows' dictionaries, filtered, in order. */
  method ExtractAnnouncementsFromTree(rows: seq<TreeRow>) returns (anns: seq<Doc>)
    ensures anns == KeptDocs(rows)
  {
    anns := [];
    for i := 0 to |rows|
      invariant anns == KeptDocs(rows[..i])
    {
      KeptDocsStep(rows, i);
      match rows[i]
      case Unreadable =>
      case Readable(row) =>
        var ann := ExtractAnnouncement(row);
        KeepsOnDoc(ExtractRecord(row), row.refConsValues);
        var reference, obj := ann["reference"], ann["objet"];
        if (Truthy(reference) && reference != FieldValue.Text(NotAvailable))
          || (Truthy(obj) && obj != FieldValue.Text(NotAvailable)) {
          anns := anns + [ann];
        } else if row.refConsValues != [] {
          anns := anns + [ann];
        }
    }
    assert rows[..|rows|] == rows;
  }

  // ---------------------------------------------------------------------------------------
  // uniq_preserve

  predicate Distinct<T(==)>(xs: seq<T>) {
    forall i, j :: 0 <= i < j < |xs| ==> xs[i] != xs[j]
  }

  /** The position of the first occurrence of `x`. */
  function FirstIndex<T(==)>(xs: seq<T>, x: T): (i: nat)
    requires x in xs
    ensures i < |xs| && xs[i] == x && x !in xs[..i]
  {
    if xs[0] == x then 0
    else
      var i := 1 + FirstIndex(xs[1..], x);
      assert xs[..i] == [xs[0]] + xs[1..][..i - 1];
      i
  }

  /** The distinct elements of `xs`, each where it first occurs. */
  function Uniq<T(==)>(xs: seq<T>): seq<T> {
    if xs == [] then []
    else
      var u := Uniq(xs[..|xs| - 1]);
      var x := xs[|xs| - 1];
      if x in u then u else u + [x]
  }

  /** Every element is kept once, and nothing else is added. */
  lemma {:induction false} UniqElements<T>(xs: seq<T>)
    ensures Distinct(Uniq(xs))
    ensures forall x :: x in Uniq(xs) <==> x in xs
  {
    if xs != [] {
      var init := xs[..|xs| - 1];
      UniqElements(init);
      assert xs == init + [xs[|xs| - 1]];
    }
  }

  /** Elements come out in the order of their first occurrences. */
  lemma {:induction false} UniqOrder<T>(xs: seq<T>)
    ensures forall x :: x in Uniq(xs) ==> x in xs
    ensures forall i, j :: 0 <= i < j < |Uniq(xs)| ==> FirstIndex(xs, Uniq(xs)[i]) < FirstIndex(xs, Uniq(xs)[j])
  {
    UniqElements(xs);
    if xs != [] {
      var init, x := xs[..|xs| - 1], xs[|xs| - 1];
      var u := Uniq(init);
      UniqOrder(init);
      UniqElements(init);
      assert xs == init + [x];
      forall y | y in init ensures FirstIndex(xs, y) == FirstIndex(init, y) {
        FirstIndexOfPrefix(init, x, y);
      }
      if x !in u {
        assert FirstIndex(xs, x) == |init| by {
          assert x !in init;
          assert x !in xs[..|init|];
        }
      }
    }
  }

  lemma {:induction false} FirstIndexOfPrefix<T>(init: seq<T>, x: T, y: T)
    requires y in init
    ensures FirstIndex(init + [x], y) == FirstIndex(init, y)
  {
    var i := FirstIndex(init, y);
    assert (init + [x])[..i] == init[..i];
    FirstIndexUnique(init + [x], y, i);
  }

  /** An occurrence with no earlier one is the first occurrence. */
  lemma {:induction false} FirstIndexUnique<T>(xs: seq<T>, x: T, i: nat)
    requires i < |xs| && xs[i] == x && x !in xs[..i]
    ensures FirstIndex(xs, x) == i
  {
    var k := FirstIndex(xs, x);
    assert forall m :: 0 <= m < i ==> xs[m] != x by {
      forall m | 0 <= m < i ensures xs[m] != x { assert xs[m] == xs[..i][m]; }
    }
    assert forall m :: 0 <= m < k ==> xs[m] != x by {
      forall m | 0 <= m < k ensures xs[m] != x { assert xs[m] == xs[..k][m]; }
    }
  }

  /** `uniq_preserve(seq)`: a seen-set and an output list, grown in one pass. */
  method UniqPreserve<T(==)>(xs: seq<T>) returns (out: seq<T>)
    ensures out == Uniq(xs)
  {
    var seen: set<T> := {};
    out := [];
    for i := 0 to |xs|
      invariant out == Uniq(xs[..i])
      invariant seen == set x | x in out
    {
      assert xs[..i + 1][..i] == xs[..i];
      if xs[i] !in seen {
        seen := seen + {xs[i]};
        out := out + [xs[i]];
      }
    }
    assert xs[..|xs|] == xs;
  }
}
