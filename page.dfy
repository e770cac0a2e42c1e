/** The crawlers' view of the web: a fetched Wikipedia page reduced to the regions the
    crawlers query, the outcome of one HTTP attempt, URL resolution against the site root,
    and the title patterns several crawlers share.

    HTML parsing is not modelled: a `Document` holds, for each region a crawler looks up, the
    text or the link targets that the HTML parser would have returned for it. */
module Page {
  import opened Seqs
  import opened Strings

  /** A block element (`<p>`, `<li>`, `<td>`, `<ul>`, `<ol>`): its text and the `href` of
      every `<a>` inside it, in document order. */
  datatype Block = Block(text: string, hrefs: seq<string>)

  /** The article body, `div#mw-content-text`. */
  datatype Content = Content(
    hrefs: seq<string>,        // every <a href> inside the body
    paragraphs: seq<Block>,    // every <p>
    lists: seq<Block>,         // every <ul> and <ol>
    sections: seq<Block>)      // every <p>, <li> and <td>, in document order

  /** The parts of a page the crawlers inspect. */
  datatype Document = Document(
    title: Option<string>,           // text of span.mw-page-title-main, stripped
    infobox: Option<string>,         // text of table.infobox
    firstPara: Option<string>,       // text of the first <p> anywhere on the page
    content: Option<Content>,        // div#mw-content-text
    members: Option<seq<string>>)    // hrefs inside div#mw-pages (category member list)

  /** Text of the first `<p>` inside the article body, when both exist. */
  function ContentFirstPara(d: Document): (r: Option<string>)
    ensures r.Some? <==> d.content.Some? && d.content.value.paragraphs != []
    ensures r.Some? ==> r.value == d.content.value.paragraphs[0].text
  {
    if d.content.Some? && d.content.value.paragraphs != [] then Some(d.content.value.paragraphs[0].text)
    else None
  }

  /** A decision of the form `(is_person, title)`. */
  datatype Verdict = Verdict(isPerson: bool, title: string)

  /** The two page heuristics a crawl loop applies: the person test and the link extractor
      (given the page and its URL). The crawl loops are specified for any heuristics, and each
      crawler fixes its own at construction. */
  datatype Heuristics = Heuristics(classify: Document -> Verdict, extract: (Document, string) -> seq<string>)

  // ---- regular expressions ----

  /** `re.search(pattern, text)` for the prose patterns (biography phrases, date mentions,
      URL exclusions), which the model does not interpret. */
  type Search = (string, string) -> bool

  /** Python's `any(re.search(p, text) for p in patterns)`, pattern by pattern. */
  predicate AnySearch(search: Search, patterns: seq<string>, text: string)
  {
    patterns != [] && (search(patterns[0], text) || AnySearch(search, patterns[1..], text))
  }

  /** Number of patterns that match `text`. */
  function CountSearch(search: Search, patterns: seq<string>, text: string): (n: nat)
    ensures n <= |patterns|
    ensures n > 0 <==> AnySearch(search, patterns, text)
  {
    if patterns == [] then 0
    else
      (if search(patterns[0], text) then 1 else 0) + CountSearch(search, patterns[1..], text)
  }

  /** The href filter `^/wiki/[^:]+$` that every link lookup applies. */
  predicate IsArticleHref(h: string)
  {
    StartsWith(h, "/wiki/") && |h| > 6 && ':' !in h
  }

  /** `[-–]`. */
  predicate IsDash(c: char)
  {
    c == '-' || c == '\U{2013}'
  }

  /** `\d{4}` at index `i`. */
  predicate FourDigitsAt(s: string, i: nat)
  {
    i + 4 <= |s| && IsDigit(s[i]) && IsDigit(s[i + 1]) && IsDigit(s[i + 2]) && IsDigit(s[i + 3])
  }

  /** `\(\d{4}[-–]\d{4}\)` at index `i`, e.g. "(1903–1987)". */
  predicate ParenRangeAt(s: string, i: nat)
  {
    i + 11 <= |s| && s[i] == '(' && FourDigitsAt(s, i + 1) && IsDash(s[i + 5])
    && FourDigitsAt(s, i + 6) && s[i + 10] == ')'
  }

  /** `\(\d{4}[-–]\)` at index `i`, e.g. "(1950–)". */
  predicate ParenOpenRangeAt(s: string, i: nat)
  {
    i + 7 <= |s| && s[i] == '(' && FourDigitsAt(s, i + 1) && IsDash(s[i + 5]) && s[i + 6] == ')'
  }

  /** `re.search(r'\(\d{4}[-–]\d{4}\)', t) or re.search(r'\(\d{4}[-–]\)', t)`: the title
      carries a life span, closed or still open. */
  predicate TitleYearRange(t: string)
  {
    exists i: nat | i < |t| :: ParenRangeAt(t, i) || ParenOpenRangeAt(t, i)
  }

  // ---- HTTP ----

  /** The result of one `session.get`: a response, or an exception from the transport. */
  datatype Outcome = Response(status: int, doc: Document) | TransportError

  /** The web as the crawlers see it: for each absolute URL, the outcome of the first,
      second, ... request to it. A URL that is not in the map, or a request beyond the
      recorded ones, fails in the transport. */
  type Web = map<string, seq<Outcome>>

  /** The outcome of the `k`-th request (0-based) to `url`. */
  function Respond(web: Web, url: string, k: nat): Outcome
  {
    if url in web && k < |web[url]| then web[url][k] else TransportError
  }

  /** `response.raise_for_status()` raises exactly for client (4xx) and server (5xx) errors. */
  predicate RaisesForStatus(status: int)
  {
    400 <= status < 600
  }

  const ORIGIN: string := "https://pt.wikipedia.org"
  const BASE_URL: string := ORIGIN + "/"

  /** `urljoin(BASE_URL, link)` for the references the crawlers pass it: absolute URLs,
      the empty string, root-relative paths and dot-free relative paths. */
  function UrlJoin(link: string): (r: string)
    ensures StartsWith(link, "http://") || StartsWith(link, "https://") ==> r == link
    ensures link == "" ==> r == BASE_URL
    ensures !StartsWith(link, "http://") && !StartsWith(link, "https://") && link != ""
            ==> r == BASE_URL + (if link[0] == '/' then link[1..] else link)
  {
    if StartsWith(link, "http://") || StartsWith(link, "https://") then link
    else if link == "" then BASE_URL
    else if link[0] == '/' then ORIGIN + link
    else BASE_URL + link
  }

  /** An article href resolves to the site origin followed by the href. */
  lemma ResolvedArticle(h: string)
    requires IsArticleHref(h)
    ensures UrlJoin(h) == ORIGIN + h
  {
    assert h[0] == '/';
    assert !StartsWith(h, "http://") by {
      assert h[0] != "http://"[0];
    }
    assert !StartsWith(h, "https://") by {
      assert h[0] != "https://"[0];
    }
  }

  /** A root-relative and the matching path-relative reference resolve to the same URL, and
      resolving a resolved URL changes nothing. */
  lemma UrlJoinCanonical(path: string)
    requires path != "" && path[0] != '/'
    requires !StartsWith(path, "http://") && !StartsWith(path, "https://")
    ensures UrlJoin("/" + path) == UrlJoin(path)
    ensures UrlJoin(UrlJoin(path)) == UrlJoin(path)
  {
    assert StartsWith(BASE_URL + path, "https://");
    assert ("/" + path)[1..] == path;
    assert ("/" + path)[0] == '/';
  }
}
