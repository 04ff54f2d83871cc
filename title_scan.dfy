/** The page-title lookup: the regular expression `/<title>([^<]*)<\/title>/i`
    run over a page's HTML, followed by `trim` of the captured text. */
module TitleScan {
  import opened Wrappers
  import opened JsString

  const OpenTag := "<title>"
  const CloseTag := "</title>"

  /** ASCII lower-casing: the only case folding the `i` flag applies to the
      characters of this pattern (outside Unicode mode no non-ASCII character
      folds onto an ASCII one). */
  function LowerChar(c: char): char {
    if 'A' <= c <= 'Z' then (c as int + 32) as char else c
  }

  /** The lower-case literal `pat` matches `s` at position `i`, ignoring case. */
  predicate LiteralAt(s: string, i: nat, pat: string) {
    i + |pat| <= |s| && forall k :: 0 <= k < |pat| ==> LowerChar(s[i + k]) == pat[k]
  }

  /** Where the greedy run `[^<]*` that starts at `i` stops: at the first `<`
      at or after `i`, or at the end of `s`. */
  function RunEnd(s: string, i: nat): (q: nat)
    requires i <= |s|
    ensures i <= q <= |s|
    ensures forall k :: i <= k < q ==> s[k] != '<'
    ensures q < |s| ==> s[q] == '<'
    decreases |s| - i
  {
    if i == |s| || s[i] == '<' then i else RunEnd(s, i + 1)
  }

  /** The whole pattern matches with its `<title>` starting at `p`. Backtracking
      into `[^<]*` never helps, since any shorter run is followed by a character
      other than `<`. */
  predicate TitleAt(s: string, p: nat) {
    LiteralAt(s, p, OpenTag) && LiteralAt(s, RunEnd(s, p + |OpenTag|), CloseTag)
  }

  /** The text the first group captures when the pattern matches at `p`. */
  function Capture(s: string, p: nat): (c: string)
    requires TitleAt(s, p)
    ensures '<' !in c
  {
    s[p + |OpenTag|..RunEnd(s, p + |OpenTag|)]
  }

  /** Any way of reading `<title>`, a `<`-free run and `</title>` from `p` uses
      exactly the run TitleAt uses: the regular expression has one reading per
      start position. */
  lemma RunUnique(s: string, p: nat, j: nat)
    requires LiteralAt(s, p, OpenTag)
    requires p + |OpenTag| <= j
    requires LiteralAt(s, j, CloseTag)
    requires forall k :: p + |OpenTag| <= k < j ==> s[k] != '<'
    ensures j == RunEnd(s, p + |OpenTag|) && TitleAt(s, p)
  {
    assert LowerChar(s[j + 0]) == CloseTag[0];
  }

  /** The regular-expression engine's scan: try start positions from `p`
      upward and stop at the first one where the pattern matches. */
  function FirstTitleFrom(s: string, p: nat): (r: Option<nat>)
    requires p <= |s|
    ensures r.Some? ==> p <= r.value < |s| && TitleAt(s, r.value)
    ensures r.Some? ==> forall k :: p <= k < r.value ==> !TitleAt(s, k)
    ensures r.None? ==> forall k :: p <= k < |s| ==> !TitleAt(s, k)
    decreases |s| - p
  {
    if p == |s| then None
    else if TitleAt(s, p) then Some(p)
    else FirstTitleFrom(s, p + 1)
  }

  /** `p` is the leftmost position where the pattern matches. */
  predicate IsFirstTitle(s: string, p: nat) {
    p < |s| && TitleAt(s, p) && forall k :: 0 <= k < p ==> !TitleAt(s, k)
  }

  /** `match && match[1] ? match[1].trim() : null`: the trimmed capture of the
      leftmost match, or None when nothing matches or the capture is empty.
      A title never contains `<` and never starts or ends with white space. */
  function ExtractTitle(html: string): (r: Option<string>)
    ensures r.Some? ==> '<' !in r.value
    ensures r.Some? && r.value != "" ==> !IsTrimmable(r.value[0]) && !IsTrimmable(r.value[|r.value| - 1])
  {
    match FirstTitleFrom(html, 0)
    case None => None
    case Some(p) =>
      var c := Capture(html, p);
      if c == "" then None
      else
        TrimKeepsOut(c, '<');
        Some(Trim(c))
  }

  /** Where the pattern matches nowhere there is no title. */
  lemma ExtractNoTitle(html: string)
    requires forall p :: 0 <= p < |html| ==> !TitleAt(html, p)
    ensures ExtractTitle(html) == None
  {
    assert FirstTitleFrom(html, 0).None?;
  }

  /** The leftmost match decides: an empty capture gives None, any other its
      trimmed text. */
  lemma ExtractFirstTitle(html: string, p: nat)
    requires IsFirstTitle(html, p)
    ensures ExtractTitle(html) == (if Capture(html, p) == "" then None else Some(Trim(Capture(html, p))))
  {
    assert FirstTitleFrom(html, 0) == Some(p);
  }

  /** A non-empty capture of nothing but white space gives the empty title,
      not None. */
  lemma BlankTitle(html: string, p: nat)
    requires IsFirstTitle(html, p)
    requires Capture(html, p) != "" && AllTrimmable(Capture(html, p))
    ensures ExtractTitle(html) == Some("")
  {
    ExtractFirstTitle(html, p);
    TrimAllTrimmable(Capture(html, p));
  }

  const MixedCasePage := "<TITLE> News </Title>"

  /** In `MixedCasePage` the upper- and mixed-case tags match at position 0,
      around the capture " News ". */
  lemma MixedCaseMatch()
    ensures IsFirstTitle(MixedCasePage, 0) && Capture(MixedCasePage, 0) == " News "
  {
    var html := MixedCasePage;
    assert html[13] == '<';
    assert RunEnd(html, 13) == 13;
    assert RunEnd(html, 11) == RunEnd(html, 12) == 13;
    assert RunEnd(html, 9) == RunEnd(html, 10) == 13;
    assert RunEnd(html, 7) == RunEnd(html, 8) == 13;
    assert LiteralAt(html, 0, OpenTag);
    assert LiteralAt(html, 13, CloseTag);
  }

  /** The capture of `MixedCasePage` loses one space at each end. */
  lemma MixedCaseTrim()
    ensures Trim(" News ") == "News"
  {
    assert " News " == " " + "News" + " ";
    TrimUnique(" News ", " ", "News", " ");
  }

  /** The tags match in any case and the title is trimmed. */
  lemma MixedCaseTitle()
    ensures ExtractTitle(MixedCasePage) == Some("News")
  {
    MixedCaseMatch();
    MixedCaseTrim();
    ExtractFirstTitle(MixedCasePage, 0);
  }

  /** `tryFetchPageTitle`: an empty URL gives None before any fetch; a failed
      fetch (`body` None) gives None; otherwise the title extracted from the
      response text, whatever the HTTP status was. */
  function PageTitle(siteUrl: string, body: Option<string>): (r: Option<string>)
    ensures siteUrl == "" || body.None? ==> r == None
    ensures siteUrl != "" && body.Some? ==> r == ExtractTitle(body.value)
  {
    if siteUrl == "" then None
    else
      match body
      case None => None
      case Some(text) => ExtractTitle(text)
  }
}
