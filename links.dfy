/**
 * The URL handling of extraction.py: `normalize_popup_link`, which turns the consultation
 * link of a row (often a `javascript:popUp('…')` call) into an absolute URL, and the
 * selection and completion of attachment links.
 */
module Links {
  import opened Wrappers
  import opened Text
  import opened Models

  /** The site every relative link is resolved against. */
  const Base := "https://www.marchespublics.gov.ma"

  // ---------------------------------------------------------------------------------------
  // The pattern `popUp\(\s*'([^']+)'`

  /** `popUp(`, blanks, a quote, then the longest run of non-quotes, which must be closed by a quote. */
  function PopUpAt(s: string, p: nat): (r: Option<string>)
    ensures r.Some? ==> |r.value| > 0 && '\'' !in r.value
  {
    if !OccursAt(s, p, "popUp(") then None
    else
      var q := SkipSpaces(s, p + 6);
      if q == |s| || s[q] != '\'' then None
      else
        var e := q + 1 + IndexOf(s[q + 1..], '\'');
        if e == q + 1 || e == |s| then None
        else Some(s[q + 1..e])
  }

  /** Group 1 of the first match of the pattern, as `re.search(...).group(1)`. */
  function FindPopUp(s: string): Option<string> {
    match Search(|s|, 0, p => PopUpAt(s, p))
    case Some((_, inner)) => Some(inner)
    case None => None
  }

  /** A well-formed call is read with exactly its quoted argument. */
  lemma {:induction false} PopUpAtComplete(s: string, p: nat, blanks: string, inner: string)
    requires AllSpace(blanks) && |inner| > 0 && '\'' !in inner
    requires OccursAt(s, p, "popUp(" + blanks + "'" + inner + "'")
    ensures PopUpAt(s, p) == Some(inner)
  {
    var q := p + 6 + |blanks|;
    PopUpCallParts(s, p, blanks, inner);
    SkipSpacesTo(s, p + 6, q);
    var rest := s[q + 1..];
    assert rest[..|inner|] == inner;
    IndexOfFirst(rest, '\'', |inner|);
    PopUpAtFound(s, p, q, q + 1 + |inner|);
  }

  /** The call at `p` whose opening quote is at `q` and closing quote at `e` reads what lies between. */
  lemma {:induction false} PopUpAtFound(s: string, p: nat, q: nat, e: nat)
    requires OccursAt(s, p, "popUp(") && p + 6 <= q < |s| && SkipSpaces(s, p + 6) == q && s[q] == '\''
    requires q + 1 < e < |s| && IndexOf(s[q + 1..], '\'') == e - q - 1
    ensures PopUpAt(s, p) == Some(s[q + 1..e])
  {
  }

  /** The pieces of a well-formed call: the name, the blanks, the opening quote, the argument and the closing quote. */
  lemma {:induction false} PopUpCallParts(s: string, p: nat, blanks: string, inner: string)
    requires AllSpace(blanks)
    requires OccursAt(s, p, "popUp(" + blanks + "'" + inner + "'")
    ensures OccursAt(s, p, "popUp(")
    ensures forall k :: p + 6 <= k < p + 6 + |blanks| ==> IsSpace(s[k])
    ensures s[p + 6 + |blanks|] == '\''
    ensures s[p + 7 + |blanks|..p + 7 + |blanks| + |inner|] == inner
    ensures s[p + 7 + |blanks| + |inner|] == '\''
  {
    var call := "popUp(" + blanks + "'" + inner + "'";
    var q := p + 6 + |blanks|;
    assert s[p..p + |call|] == call;
    assert s[p..p + 6] == call[..6] == "popUp(";
    forall k | p + 6 <= k < q ensures IsSpace(s[k]) {
      assert s[k] == call[k - p] == blanks[k - p - 6];
    }
    assert s[q] == call[6 + |blanks|];
    forall k | 0 <= k < |inner| ensures s[q + 1 + k] == inner[k] {
      assert s[q + 1 + k] == call[7 + |blanks| + k];
    }
    assert s[q + 1 + |inner|] == call[|call| - 1];
  }

  lemma {:induction false} IndexOfFirst(s: string, c: char, k: nat)
    requires k < |s| && s[k] == c && c !in s[..k]
    ensures IndexOf(s, c) == k
  {
  }

  // ---------------------------------------------------------------------------------------
  // normalize_popup_link

  /** Where the argument of a `popUp` call points, made absolute under `Base`. */
  function PopUpTarget(inner: string): (r: string)
    ensures StartsWith(r, Base) && EndsWith(r, inner)
  {
    var r :=
      if StartsWith(inner, "/") then Base + inner
      else if StartsWith(inner, "index.php") then Base + "/" + inner
      else if StartsWith(inner, "?") then Base + "/index.php" + inner
      // The source tests `page=` separately and builds the same URL as the default case.
      else if StartsWith(inner, "page=") then Base + "/index.php?" + inner
      else Base + "/index.php?" + inner;
    assert r[..|Base|] == Base;
    r
  }

  /** The four shapes of a `popUp` argument and the URL each becomes. */
  lemma {:induction false} PopUpTargetCases(inner: string)
    ensures StartsWith(inner, "/") ==> PopUpTarget(inner) == Base + inner
    ensures StartsWith(inner, "index.php") ==> PopUpTarget(inner) == Base + "/" + inner
    ensures StartsWith(inner, "?") ==> PopUpTarget(inner) == Base + "/index.php" + inner
    ensures !StartsWith(inner, "/") && !StartsWith(inner, "index.php") && !StartsWith(inner, "?") ==>
      PopUpTarget(inner) == Base + "/index.php?" + inner
  {
    if StartsWith(inner, "/") || StartsWith(inner, "?") {
      assert inner[0] != 'i';
    }
  }

  /** A link that is neither absolute nor a `popUp` call, completed when it names `index.php`. */
  function PlainTarget(h: string): (r: string)
    ensures r == h || StartsWith(r, Base + "/")
  {
    if StartsWith(h, "index.php") then Base + "/" + h
    else if StartsWith(h, "?") then Base + "/index.php" + h
    else h
  }

  /** A plain link naming `index.php` or starting with `?` is completed under the site; any other is kept. */
  lemma {:induction false} PlainTargetCases(h: string)
    ensures StartsWith(h, "index.php") ==> PlainTarget(h) == Base + "/" + h
    ensures StartsWith(h, "?") ==> PlainTarget(h) == Base + "/index.php" + h
    ensures !StartsWith(h, "index.php") && !StartsWith(h, "?") ==> PlainTarget(h) == h
  {
    if StartsWith(h, "?") {
      assert h[0] != 'i';
    }
  }

  /**
   * `normalize_popup_link(href)`: `"N/A"` for an empty link; otherwise the stripped link
   * unchanged when it already starts with `http`, the target of its first `popUp('…')`
   * call, or the link completed by `PlainTarget`.
   */
  function NormalizePopupLink(href: string): (r: string)
    ensures href == "" ==> r == NotAvailable
    ensures href != "" && StartsWith(Strip(href), "http") ==> r == Strip(href)
    ensures r == NotAvailable || r == Strip(href) || StartsWith(r, Base)
  {
    if href == "" then NotAvailable
    else
      var h := Strip(href);
      if StartsWith(h, "http") then h
      else match FindPopUp(h)
        case Some(inner) => PopUpTarget(inner)
        case None =>
          var r := PlainTarget(h);
          assert r != h ==> r[..|Base|] == (Base + "/")[..|Base|];
          r
  }

  /** A link that starts with a well-formed `popUp('…')` call resolves to that call's target. */
  lemma {:induction false} NormalizeLeadingPopUp(href: string, inner: string, rest: string)
    requires |inner| > 0 && '\'' !in inner
    requires href == "popUp('" + inner + "'" + rest
    requires rest == "" || !IsSpace(rest[|rest| - 1])
    ensures NormalizePopupLink(href) == PopUpTarget(inner)
  {
    LeadingPopUpIsStripped(href, inner, rest);
    LeadingPopUpNotAbsolute(href, inner, rest);
    LeadingPopUpFound(href, inner, rest);
    NormalizeFoundPopUp(href, inner);
  }

  /** A stripped link that is not absolute and holds a `popUp` call resolves to the call's target. */
  lemma {:induction false} NormalizeFoundPopUp(h: string, inner: string)
    requires h != "" && Strip(h) == h && !StartsWith(h, "http") && FindPopUp(h) == Some(inner)
    ensures NormalizePopupLink(h) == PopUpTarget(inner)
  {
  }

  lemma {:induction false} LeadingPopUpNotAbsolute(href: string, inner: string, rest: string)
    requires href == "popUp('" + inner + "'" + rest
    ensures !StartsWith(href, "http")
  {
    assert href[0] == 'p' && href[1] == 'o';
  }

  lemma {:induction false} LeadingPopUpIsStripped(href: string, inner: string, rest: string)
    requires href == "popUp('" + inner + "'" + rest
    requires rest == "" || !IsSpace(rest[|rest| - 1])
    ensures href != "" && Strip(href) == href
  {
    assert href[0] == 'p';
    if rest == "" {
      assert href[|href| - 1] == '\'';
    } else {
      assert href[|href| - 1] == rest[|rest| - 1];
    }
    StrippedIsFixpoint(href);
  }

  lemma {:induction false} LeadingPopUpFound(href: string, inner: string, rest: string)
    requires |inner| > 0 && '\'' !in inner
    requires href == "popUp('" + inner + "'" + rest
    ensures FindPopUp(href) == Some(inner)
  {
    var call := "popUp(" + "" + "'" + inner + "'";
    assert href[..|call|] == call;
    PopUpAtComplete(href, 0, "", inner);
    SearchFindsFirst(|href|, 0, p => PopUpAt(href, p), 0);
  }

  // ---------------------------------------------------------------------------------------
  // Attachments

  /** An anchor kept as an attachment: a non-empty link whose lower-cased form mentions a file. */
  predicate IsAttachmentLink(h: string)
    ensures IsAttachmentLink(h) ==> h != ""
    ensures h != "" && Contains(Lower(h), ".pdf") ==> IsAttachmentLink(h)
  {
    h != "" && (Contains(Lower(h), ".pdf") || Contains(Lower(h), "download") || Contains(Lower(h), "pieces"))
  }

  /** An attachment link made absolute: site-relative links get `Base`, others `Base + "/"`. */
  function AbsoluteAttachment(h: string): (r: string)
    requires h != ""
    ensures StartsWith(r, "http") && EndsWith(r, h)
    ensures StartsWith(h, "http") ==> r == h
  {
    // `h.lstrip('/')` in the last case is `h` itself: that case only sees links not starting with '/'.
    var r :=
      if StartsWith(h, "/") then Base + h
      else if StartsWith(h, "http") then h
      else Base + "/" + h;
    assert StartsWith(h, "http") ==> !StartsWith(h, "/") by {
      if StartsWith(h, "http") { assert h[0] == 'h'; }
    }
    assert r != h ==> StartsWith(r, "http") && EndsWith(r, h) by {
      if r != h {
        var prefix := if StartsWith(h, "/") then Base else Base + "/";
        assert r == prefix + h;
        assert r[..4] == prefix[..4] == Base[..4] == "http";
        assert r[|r| - |h|..] == h;
      }
    }
    r
  }

  /** Site-relative links get the site prefixed, `http` links are kept, and any other gets the site and `/`. */
  lemma {:induction false} AbsoluteAttachmentCases(h: string)
    requires h != ""
    ensures StartsWith(h, "/") ==> AbsoluteAttachment(h) == Base + h
    ensures StartsWith(h, "http") ==> AbsoluteAttachment(h) == h
    ensures !StartsWith(h, "/") && !StartsWith(h, "http") ==> AbsoluteAttachment(h) == Base + "/" + h
  {
  }

  /** `piecesJointes`: the attachment links among `hrefs`, in document order, made absolute. */
  function Attachments(hrefs: seq<string>): (r: seq<string>)
    ensures |r| <= |hrefs|
    ensures forall i :: 0 <= i < |r| ==> StartsWith(r[i], "http")
  {
    if hrefs == [] then []
    else
      var last := hrefs[|hrefs| - 1];
      Attachments(hrefs[..|hrefs| - 1]) + (if IsAttachmentLink(last) then [AbsoluteAttachment(last)] else [])
  }

  /** Attachments of consecutive parts of a row are the parts' attachments, in order, duplicates kept. */
  lemma {:induction false} AttachmentsAppend(a: seq<string>, b: seq<string>)
    ensures Attachments(a + b) == Attachments(a) + Attachments(b)
    decreases |b|
  {
    if b == [] {
      assert a + b == a;
    } else {
      var init := b[..|b| - 1];
      assert (a + b)[..|a + b| - 1] == a + init;
      AttachmentsAppend(a, init);
    }
  }

  /** One link contributes itself, completed, exactly when it names a file. */
  lemma {:induction false} AttachmentsOfOne(h: string)
    ensures Attachments([h]) == if IsAttachmentLink(h) then [AbsoluteAttachment(h)] else []
  {
    assert [h][..0] == [];
  }

  /** Links that name no file contribute nothing. */
  lemma {:induction false} AttachmentsNone(hrefs: seq<string>)
    requires forall i :: 0 <= i < |hrefs| ==> !IsAttachmentLink(hrefs[i])
    ensures Attachments(hrefs) == []
  {
    if hrefs != [] {
      AttachmentsNone(hrefs[..|hrefs| - 1]);
    }
  }

  // ---------------------------------------------------------------------------------------
  // Choosing the consultation link

  /** The first link that contains `sub`, as `xpath('…[contains(@href, sub)]/@href')[0]`. */
  function FirstContaining(hrefs: seq<string>, sub: string): (r: Option<string>)
    ensures r.Some? ==> r.value in hrefs && Contains(r.value, sub)
    ensures r.None? <==> forall i :: 0 <= i < |hrefs| ==> !Contains(hrefs[i], sub)
    ensures r.Some? ==> exists i :: 0 <= i < |hrefs| && hrefs[i] == r.value && forall j :: 0 <= j < i ==> !Contains(hrefs[j], sub)
  {
    if hrefs == [] then None
    else if Contains(hrefs[0], sub) then Some(hrefs[0])
    else
      var r := FirstContaining(hrefs[1..], sub);
      assert r.Some? ==> exists i :: 0 <= i < |hrefs| && hrefs[i] == r.value && forall j :: 0 <= j < i ==> !Contains(hrefs[j], sub) by {
        if r.Some? {
          var i :| 0 <= i < |hrefs[1..]| && hrefs[1..][i] == r.value && forall j :: 0 <= j < i ==> !Contains(hrefs[1..][j], sub);
          assert hrefs[i + 1] == r.value;
          assert forall j :: 0 <= j < i + 1 ==> !Contains(hrefs[j], sub) by {
            forall j | 0 <= j < i + 1 ensures !Contains(hrefs[j], sub) {
              if j > 0 { assert hrefs[j] == hrefs[1..][j - 1]; }
            }
          }
        }
      }
      r
  }

  /**
   * The consultation link of a row: the first `popUp` link of the place cell, else the first
   * `refConsultation` link of the row, else none, normalized.
   */
  function ConsultationLink(placeCellHrefs: Option<seq<string>>, rowHrefs: seq<string>): (r: string)
    ensures ((placeCellHrefs.None? || FirstContaining(placeCellHrefs.value, "popUp").None?)
             && FirstContaining(rowHrefs, "refConsultation").None?) ==> r == NotAvailable
    ensures placeCellHrefs.Some? && FirstContaining(placeCellHrefs.value, "popUp").Some? ==>
              r == NormalizePopupLink(FirstContaining(placeCellHrefs.value, "popUp").value)
    ensures (placeCellHrefs.None? || FirstContaining(placeCellHrefs.value, "popUp").None?)
            && FirstContaining(rowHrefs, "refConsultation").Some? ==>
              r == NormalizePopupLink(FirstContaining(rowHrefs, "refConsultation").value)
  {
    var fromCell := match placeCellHrefs
      case Some(hs) => (match FirstContaining(hs, "popUp") case Some(h) => h case None => "")
      case None => "";
    var link := if fromCell != "" then fromCell
      else match FirstContaining(rowHrefs, "refConsultation") case Some(h) => h case None => "";
    NormalizePopupLink(link)
  }
}
