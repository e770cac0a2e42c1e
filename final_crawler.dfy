/** final_assignment_crawler.py: a breadth-first crawler seeded with two category pages, a
    list page and the home page. It fetches each URL through a pool of three sessions with
    up to three attempts, accepts pages as biographies aggressively (recall before
    precision), saves them, and appends the unvisited links of biographical passages,
    name-like links first. Every 15 pages, when fewer than 5% of them were people and the
    deque runs short, it pushes two actor and singer categories to the front. */
module FinalCrawler {
  import opened Seqs
  import opened Strings
  import opened Page
  import opened Sessions
  import opened Fetch
  import opened Store
  import opened Links
  import opened Frontier

  const START_PAGES: seq<string> := [
    "https://pt.wikipedia.org/wiki/Categoria:Brasileiros",
    "https://pt.wikipedia.org/wiki/Categoria:Nascidos_em_1980",
    "https://pt.wikipedia.org/wiki/Categoria:Políticos_do_Brasil",
    "https://pt.wikipedia.org/wiki/Lista_de_presidentes_do_Brasil",
    "https://pt.wikipedia.org"]

  const BOOST_PAGES: seq<string> := [
    "https://pt.wikipedia.org/wiki/Categoria:Atores_do_Brasil",
    "https://pt.wikipedia.org/wiki/Categoria:Cantores_do_Brasil"]

  const POOL_SIZE: nat := 3
  const MAX_RETRIES: nat := 3
  const MAX_TITLE: nat := 80

  // ---- is_person_aggressive ----

  const HARD_EXCLUSIONS: seq<string> := [
    "lista de", "categoria:", "anexo:", "portal:", "predefinição:",
    "ficheiro:", "ajuda:", "wikipédia:", "especial:"]

  /** The third title indicator, a date written out ("15 de março de 1980"). */
  const TITLE_DATE_PATTERN: string := @"\b\d{1,2}\s+de\s+\w+\s+de\s+\d{4}"

  const PLACE_WORDS: seq<string> := ["rio", "serra", "lago", "cidade", "estado", "país"]

  const STRONG_PERSON_FIELDS: seq<string> := [
    "nascimento:", "nasceu:", "nascido:", "nascida:",
    "morte:", "morreu:", "morto:", "morta:", "faleceu:",
    "cônjuge:", "esposa:", "esposo:", "marido:", "mulher:",
    "filhos:", "filho(a)s:", "prole:",
    "ocupação:", "profissão:", "atividade:", "carreira:"]

  const WEAK_PERSON_FIELDS: seq<string> := [
    "nacionalidade:", "natural de:", "formação:", "conhecido por:", "pseudônimo:", "nome artístico:"]

  const ANTI_PERSON_FIELDS: seq<string> := [
    "fundação:", "fundado:", "criação:", "criado:",
    "sede:", "população:", "área:", "território:",
    "gênero musical:", "editora:", "lançamento:",
    "formato:", "duração:", "tipo de:"]

  const BIO_PATTERNS: seq<string> := [
    @"\bé um (ator|político|escritor|cantor|jogador|atleta|cientista|médico|advogado|jornalista|apresentador|diretor|produtor)",
    @"\bé uma (atriz|política|escritora|cantora|jogadora|atleta|cientista|médica|advogada|jornalista|apresentadora|diretora|produtora)",
    @"\bfoi um (ator|político|escritor|cantor|jogador|atleta|cientista|médico|advogado|jornalista|apresentador|diretor|produtor)",
    @"\bfoi uma (atriz|política|escritora|cantora|jogadora|atleta|cientista|médica|advogada|jornalista|apresentadora|diretora|produtora)",
    @"\bnasceu em \d{1,2} de \w+ de \d{4}",
    @"\bmorreu em \d{1,2} de \w+ de \d{4}",
    @"\(.*\d{4}.*[-–].*\d{4}.*\)",
    @"\(.*\d{4}.*[-–].*\)",
    @"\bfilho de .* e .*",
    @"\bcasou.* com .*",
    @"\bformou.* em .*",
    @"\bconhecido.*por.*"]

  const DATE_PATTERNS: seq<string> := [
    @"\b\d{1,2} de (janeiro|fevereiro|março|abril|maio|junho|julho|agosto|setembro|outubro|novembro|dezembro) de \d{4}",
    @"\bem \d{4}",
    @"\banos? \d{4}"]

  /** A title indicator matches: a life span in parentheses, closed or open, or a date
      written out. */
  predicate TitleDates(t: string, search: Search)
  {
    TitleYearRange(t) || search(TITLE_DATE_PATTERN, t)
  }

  /** `[A-Z][a-z]+` matching all of `w`. */
  predicate CapWord(w: string)
  {
    |w| >= 2 && IsUpper(w[0]) && forall k | 1 <= k < |w| :: IsLowerAscii(w[k])
  }

  /** `[a-z]+` matching all of `w`. */
  predicate LowerWord(w: string)
  {
    |w| >= 1 && forall k | 0 <= k < |w| :: IsLowerAscii(w[k])
  }

  /** `^[A-Z][a-z]+ [A-Z][a-z]+$`, e.g. "Tom Jobim". */
  predicate FirstLast(t: string)
  {
    exists i | 0 < i < |t| :: t[i] == ' ' && CapWord(t[..i]) && CapWord(t[i + 1..])
  }

  /** `^[A-Z][a-z]+ [a-z]+ [A-Z][a-z]+$`, e.g. "Machado de Assis". */
  predicate FirstParticleLast(t: string)
  {
    exists i, j | 0 < i < j < |t| :: t[i] == ' ' && t[j] == ' ' && CapWord(t[..i]) && LowerWord(t[i + 1..j]) && CapWord(t[j + 1..])
  }

  /** `^[A-Z][a-z]+ [A-Z][a-z]+ [A-Z][a-z]+$`, e.g. "Carlos Alberto Torres". */
  predicate FirstMiddleLast(t: string)
  {
    exists i, j | 0 < i < j < |t| :: t[i] == ' ' && t[j] == ' ' && CapWord(t[..i]) && CapWord(t[i + 1..j]) && CapWord(t[j + 1..])
  }

  /** One of the name patterns matches the title, and its lower-cased form contains no place
      word. */
  predicate NameSignal(t: string)
  {
    (FirstLast(t) || FirstParticleLast(t) || FirstMiddleLast(t)) && !ContainsAny(Lower(t), PLACE_WORDS)
  }

  /** `person_score` doubled: 2 per strong field and 1 per weak field found in the infobox. */
  function DoubledScore(box: string): nat
  {
    2 * CountContained(Lower(box), STRONG_PERSON_FIELDS) + CountContained(Lower(box), WEAK_PERSON_FIELDS)
  }

  /** The source's score `strong + 0.5 * weak` reaches 1.5 exactly when the doubled score
      reaches 3. */
  lemma ScoreThreshold(strong: nat, weak: nat)
    ensures (strong as real) + 0.5 * (weak as real) >= 1.5 <==> 2 * strong + weak >= 3
  {
  }

  /** The infobox holds an anti-person field. */
  predicate InfoboxVeto(d: Document)
  {
    d.infobox.Some? && ContainsAny(Lower(d.infobox.value), ANTI_PERSON_FIELDS)
  }

  /** The infobox scores at least 1.5. */
  predicate InfoboxConfirms(d: Document)
  {
    d.infobox.Some? && DoubledScore(d.infobox.value) >= 3
  }

  /** The first paragraph of the page, lower-cased and cut to 400 characters, matches a
      biography pattern or at least two date patterns. */
  predicate ParagraphConfirms(d: Document, search: Search)
  {
    d.firstPara.Some?
    && var text := Take(Lower(d.firstPara.value), 400);
       AnySearch(search, BIO_PATTERNS, text) || CountSearch(search, DATE_PATTERNS, text) >= 2
  }

  /** `is_person_aggressive`: a page is a person when its title exists and carries no hard
      exclusion, and it has a title date, or a name-shaped title without a place word, or,
      failing those, no anti-person infobox field and either a score of at least 1.5 or a
      biographical first paragraph. The title is returned whenever it exists. */
  function Aggressive(d: Document, search: Search): (v: Verdict)
    ensures d.title.None? ==> v == Verdict(false, "")
    ensures d.title.Some? ==> v.title == d.title.value
    ensures v.isPerson <==>
              d.title.Some? && !ContainsAny(Lower(d.title.value), HARD_EXCLUSIONS)
              && (TitleDates(d.title.value, search) || NameSignal(d.title.value)
                  || (!InfoboxVeto(d) && (InfoboxConfirms(d) || ParagraphConfirms(d, search))))
  {
    match d.title
    case None => Verdict(false, "")
    case Some(title) =>
      if ContainsAny(Lower(title), HARD_EXCLUSIONS) then Verdict(false, title)
      else if TitleDates(title, search) then Verdict(true, title)
      else if NameSignal(title) then Verdict(true, title)
      else
        var byInfobox :=
          match d.infobox
          case None => None
          case Some(box) =>
            if ContainsAny(Lower(box), ANTI_PERSON_FIELDS) then Some(false)
            else if DoubledScore(box) >= 3 then Some(true)
            else None;
        if byInfobox.Some? then Verdict(byInfobox.value, title)
        else
          match d.firstPara
          case None => Verdict(false, title)
          case Some(p) =>
            var text := Take(Lower(p), 400);
            if AnySearch(search, BIO_PATTERNS, text) then Verdict(true, title)
            else Verdict(CountSearch(search, DATE_PATTERNS, text) >= 2, title)
  }

  /** The place-word test looks for substrings, not words: "Mario Quintana" has the shape of
      a name, but "mario" contains "rio", so the name stage does not accept it. */
  lemma PlaceWordInsideName()
    ensures FirstLast("Mario Quintana") && !NameSignal("Mario Quintana")
  {
    var t := "Mario Quintana";
    assert t[5] == ' ' && t[..5] == "Mario" && t[6..] == "Quintana";
    assert CapWord(t[..5]) && CapWord(t[6..]);
    assert Lower(t)[..5] == "mario";
    assert OccursAt(Lower(t), "rio", 2);
  }

  // ---- is_valid_link, prioritize_links, extract_smart_links ----

  const EXCLUDED_NAMESPACES: seq<string> := [
    "Ficheiro:", "Categoria:", "Predefinição:", "Ajuda:", "Wikipédia:", "MediaWiki:", "Especial:"]

  /** `is_valid_link`: a non-empty `/wiki/` href that names none of the seven namespaces
      (case-sensitively). */
  function IsValidLink(href: string): (r: bool)
    ensures r <==> StartsWith(href, "/wiki/") && forall ns | ns in EXCLUDED_NAMESPACES :: !Contains(href, ns)
  {
    ContainsAnyIff(href, EXCLUDED_NAMESPACES);
    if href == "" || !StartsWith(href, "/wiki/") then false
    else !ContainsAny(href, EXCLUDED_NAMESPACES)
  }

  /** Every namespace marker ends in a colon, which an article href never contains: the
      filter accepts every anchor the article-link lookup returns. */
  lemma ArticleHrefsValid(h: string)
    requires IsArticleHref(h)
    ensures IsValidLink(h)
  {
    ArticleHrefAvoids(h, EXCLUDED_NAMESPACES);
  }

  const PRIORITY_LINK_PATTERNS: seq<string> := [@"/wiki/[A-Z][a-z]+_[A-Z][a-z]+", @"/wiki/[A-Z][a-z]+_[a-z]+_[A-Z][a-z]+"]

  const PRIORITY_CATEGORIES: seq<string> := [
    "categoria:brasileiros", "categoria:nascidos", "categoria:atores",
    "categoria:cantores", "categoria:políticos", "categoria:escritores"]

  /** The test of `prioritize_links`: a name-like link or a link into one of the people
      categories. */
  function IsPriority(search: Search): string -> bool
  {
    l => AnySearch(search, PRIORITY_LINK_PATTERNS, l) || ContainsAny(Lower(l), PRIORITY_CATEGORIES)
  }

  /** `priority_links + normal_links`. */
  function Prioritize(links: seq<string>, isPriority: string -> bool): seq<string>
  {
    Filter(links, isPriority) + FilterOut(links, isPriority)
  }

  /** Prioritising loses and adds nothing: the result is a permutation of the input. */
  lemma PrioritizePermutation(links: seq<string>, isPriority: string -> bool)
    ensures multiset(Prioritize(links, isPriority)) == multiset(links)
  {
    FilterPartition(links, isPriority);
  }

  /** Every priority link comes before every other link. */
  lemma PrioritizeOrder(links: seq<string>, isPriority: string -> bool)
    ensures var r := Prioritize(links, isPriority);
            forall i, j | 0 <= i < j < |r| :: isPriority(r[j]) ==> isPriority(r[i])
  {
    var yes, no := Filter(links, isPriority), FilterOut(links, isPriority);
    var r := yes + no;
    forall i, j | 0 <= i < j < |r| && isPriority(r[j]) ensures isPriority(r[i]) {
      if j < |yes| {
        assert r[i] == yes[i] && r[i] in yes;
      }
    }
  }

  /** Each group keeps its relative order: the priority links of the result are those of
      the input, in the same order, and so are the others. */
  lemma PrioritizeStable(links: seq<string>, isPriority: string -> bool)
    ensures Filter(Prioritize(links, isPriority), isPriority) == Filter(links, isPriority)
    ensures FilterOut(Prioritize(links, isPriority), isPriority) == FilterOut(links, isPriority)
  {
    var yes, no := Filter(links, isPriority), FilterOut(links, isPriority);
    FilterAppend(yes, no, isPriority);
    FilterOutAppend(yes, no, isPriority);
    FilterAll(yes, isPriority);
    FilterNone(no, isPriority);
  }

  /** A list without duplicates stays without duplicates. */
  lemma PrioritizeNoDup(links: seq<string>, isPriority: string -> bool)
    requires NoDup(links)
    ensures NoDup(Prioritize(links, isPriority))
  {
    var yes, no := Filter(links, isPriority), FilterOut(links, isPriority);
    var r := yes + no;
    FilterNoDup(links, isPriority);
    forall i, j | 0 <= i < j < |r| ensures r[i] != r[j] {
      if i < |yes| && j >= |yes| {
        assert r[i] in yes && r[j] in no;
      } else if j < |yes| {
        assert r[i] == yes[i] && r[j] == yes[j];
      } else {
        assert r[i] == no[i - |yes|] && r[j] == no[j - |yes|];
      }
    }
  }

  /** Filtering keeps the elements that pass and removes the rest, so filtering a list whose
      elements all pass, or all fail, leaves it whole, or empty. */
  lemma {:induction false} FilterAll(s: seq<string>, p: string -> bool)
    requires forall x | x in s :: p(x)
    ensures Filter(s, p) == s && FilterOut(s, p) == []
  {
    if s != [] {
      assert forall x | x in s[1..] :: x in s;
      FilterAll(s[1..], p);
      assert s == [s[0]] + s[1..];
    }
  }

  lemma {:induction false} FilterNone(s: seq<string>, p: string -> bool)
    requires forall x | x in s :: !p(x)
    ensures Filter(s, p) == [] && FilterOut(s, p) == s
  {
    if s != [] {
      assert forall x | x in s[1..] :: x in s;
      FilterNone(s[1..], p);
      assert s == [s[0]] + s[1..];
    }
  }

  /** `prioritize_links(links)`. */
  method PrioritizeLinks(links: seq<string>, isPriority: string -> bool) returns (r: seq<string>)
    ensures r == Prioritize(links, isPriority)
  {
    var priority, normal := SplitBy(links, isPriority);
    r := priority + normal;
  }

  const BIO_TRIGGERS: seq<string> := ["nasceu", "morreu", "filho", "casou", "formou"]

  /** The links `extract_smart_links` gathers before de-duplication: on a category page (the
      lower-cased URL mentions "categoria:") the first 100 article anchors of the body,
      elsewhere the anchors of those of the first 20 `<p>`, `<li>` and `<td>` elements whose
      text mentions a biography word; only valid links, resolved against the site. */
  function GatheredLinks(c: Content, currentUrl: string): seq<string>
  {
    if Contains(Lower(currentUrl), "categoria:") then Kept(Take(ArticleLinks(c.hrefs), 100), IsValidLink, UrlJoin)
    else TriggeredLinks(Take(c.sections, 20), BIO_TRIGGERS, IsValidLink, UrlJoin)
  }

  /** `extract_smart_links(soup, current_url)`: the gathered links without duplicates,
      prioritised, cut to 30. */
  function SmartLinks(d: Document, currentUrl: string, isPriority: string -> bool): seq<string>
  {
    match d.content
    case None => []
    case Some(c) => Take(Prioritize(Distinct(GatheredLinks(c, currentUrl)), isPriority), 30)
  }

  /** Every extracted link is the absolute URL of a valid article href of the page; there
      are at most 30 of them and none twice. */
  lemma SmartLinksSpec(d: Document, currentUrl: string, isPriority: string -> bool)
    ensures var r := SmartLinks(d, currentUrl, isPriority);
            |r| <= 30 && NoDup(r)
            && forall l | l in r :: exists h | IsArticleHref(h) && IsValidLink(h) :: l == ORIGIN + h
  {
    if d.content.Some? {
      RankedFrom(GatheredLinks(d.content.value, currentUrl), isPriority);
      GatheredFrom(d.content.value, currentUrl);
    }
  }

  /** De-duplicating, prioritising and cutting to 30 keeps at most 30 distinct links, all
      drawn from the input. */
  lemma RankedFrom(gathered: seq<string>, isPriority: string -> bool)
    ensures var r := Take(Prioritize(Distinct(gathered), isPriority), 30);
            |r| <= 30 && NoDup(r) && forall l | l in r :: l in gathered
  {
    var p := Prioritize(Distinct(gathered), isPriority);
    PrioritizeNoDup(Distinct(gathered), isPriority);
    var r := Take(p, 30);
    assert forall i, j | 0 <= i < j < |r| :: r[i] == p[i] && r[j] == p[j];
    forall l | l in r ensures l in gathered {
      assert l in p;
      assert l in Filter(Distinct(gathered), isPriority) || l in FilterOut(Distinct(gathered), isPriority);
      assert l in Elems(Distinct(gathered));
    }
  }

  lemma GatheredFrom(c: Content, currentUrl: string)
    ensures forall l | l in GatheredLinks(c, currentUrl) :: exists h | IsArticleHref(h) && IsValidLink(h) :: l == ORIGIN + h
  {
    if Contains(Lower(currentUrl), "categoria:") {
      var anchors := Take(ArticleLinks(c.hrefs), 100);
      forall l | l in GatheredLinks(c, currentUrl) ensures exists h | IsArticleHref(h) && IsValidLink(h) :: l == ORIGIN + h {
        KeptFrom(anchors, IsValidLink, UrlJoin, l);
        var h :| h in anchors && IsValidLink(h) && l == UrlJoin(h);
        assert h in ArticleLinks(c.hrefs);
        ResolvedArticle(h);
      }
    } else {
      TriggeredLinksFrom(Take(c.sections, 20), BIO_TRIGGERS, IsValidLink, UrlJoin);
      forall l | l in GatheredLinks(c, currentUrl) ensures exists h | IsArticleHref(h) && IsValidLink(h) :: l == ORIGIN + h {
        var b, h :| b in Take(c.sections, 20) && h in b.hrefs && IsArticleHref(h) && IsValidLink(h) && l == UrlJoin(h);
        ResolvedArticle(h);
      }
    }
  }

  /** The loops of `extract_smart_links`. */
  method ExtractSmartLinks(d: Document, currentUrl: string, isPriority: string -> bool) returns (links: seq<string>)
    ensures links == SmartLinks(d, currentUrl, isPriority)
  {
    if d.content.None? {
      return [];
    }
    var c := d.content.value;
    if Contains(Lower(currentUrl), "categoria:") {
      links := AppendKept([], Take(ArticleLinks(c.hrefs), 100), IsValidLink, UrlJoin);
      assert links == GatheredLinks(c, currentUrl);
    } else {
      links := CollectTriggered([], Take(c.sections, 20), BIO_TRIGGERS, IsValidLink, UrlJoin);
      assert links == GatheredLinks(c, currentUrl);
    }
    links := PrioritizeLinks(Distinct(links), isPriority);
    links := Take(links, 30);
  }

  // ---- the crawl ----

  /** An entry of `person_pages`. */
  datatype Person = Person(url: string, title: string)

  /** The fields of `ImprovedAccuracyCrawler` that the crawl changes, the requests sent so
      far to each URL and the pool's session index. */
  datatype CrawlState = CrawlState(
    visited: set<string>,
    queue: seq<string>,
    collected: nat,
    people: seq<Person>,
    pagesVisited: nat,
    files: Dir,
    sent: map<string, nat>,
    session: nat)

  /** Between passes: the pool index is in range, every collected person is listed once,
      under a visited URL, and has its file. */
  predicate Inv(s: CrawlState)
  {
    s.session < POOL_SIZE && |s.people| == s.collected
    && (forall i | 0 <= i < |s.people| :: s.people[i].url in s.visited && FileName(s.people[i].title, MAX_TITLE) in s.files)
    && (forall i, j | 0 <= i < j < |s.people| :: s.people[i].url != s.people[j].url)
  }

  function Requests(s: CrawlState, url: string): nat
  {
    if url in s.sent then s.sent[url] else 0
  }

  /** `make_request(url)` with the crawler's policy, against what the web still answers. */
  function FetchOutcome(web: Web, s: CrawlState, url: string): Fetched
  {
    Retry(FINAL_POLICY, MAX_RETRIES, Remaining(web, url, Requests(s, url)), 0)
  }

  /** A fetch succeeds only for a URL the web knows, with one of its recorded answers. */
  lemma FetchSucceedsKnown(web: Web, s: CrawlState, url: string)
    ensures FetchOutcome(web, s, url).doc.Some? ==>
              url in web && exists k | Requests(s, url) <= k < Requests(s, url) + MAX_RETRIES :: IsOk(Respond(web, url, k))
  {
    var outs := Remaining(web, url, Requests(s, url));
    RetrySucceedsIff(FINAL_POLICY, MAX_RETRIES, outs, 0);
    if FetchOutcome(web, s, url).doc.Some? {
      var j :| 0 <= j < MAX_RETRIES && IsOk(Out(outs, j));
      RemainingOut(web, url, Requests(s, url), j);
    }
  }

  /** The requests of a fetch were sent, through as many sessions of the pool. */
  function AfterFetch(s: CrawlState, url: string, f: Fetched): (t: CrawlState)
    requires s.session < POOL_SIZE
    ensures t.session < POOL_SIZE
  {
    s.(sent := s.sent[url := Requests(s, url) + f.sent], session := After(s.session, POOL_SIZE, f.sent))
  }

  /** A fetched page is visited; a person page is saved under its title, counted and
      listed. */
  function Collect(s: CrawlState, url: string, doc: Document, v: Verdict): CrawlState
  {
    var s1 := s.(visited := s.visited + {url});
    if v.isPerson then
      var saved := SaveOverwrite(s1.files, FileName(v.title, MAX_TITLE), doc);
      s1.(files := saved.dir, collected := s1.collected + 1, people := s1.people + [Person(url, v.title)])
    else s1
  }

  /** `for link in new_links: if link not in visited_links and link not in links_to_visit:
      links_to_visit.append(link)`. */
  function EnqueueUnseen(queue: seq<string>, visited: set<string>, links: seq<string>): seq<string>
    decreases |links|
  {
    if links == [] then queue
    else
      var l := links[0];
      EnqueueUnseen(if l !in visited && l !in queue then queue + [l] else queue, visited, links[1..])
  }

  /** Appending the unseen links is appending, without repeats, the links that are not
      visited. */
  lemma {:induction false} EnqueueUnseenIsPushBack(queue: seq<string>, visited: set<string>, links: seq<string>)
    ensures EnqueueUnseen(queue, visited, links) == PushBackNew(queue, Filter(links, Unvisited(visited)))
    decreases |links|
  {
    if links != [] {
      var l := links[0];
      var q := if l !in visited && l !in queue then queue + [l] else queue;
      EnqueueUnseenIsPushBack(q, visited, links[1..]);
      var rest := Filter(links[1..], Unvisited(visited));
      if l !in visited {
        assert Filter(links, Unvisited(visited)) == [l] + rest;
        assert ([l] + rest)[0] == l && ([l] + rest)[1..] == rest;
      } else {
        assert Filter(links, Unvisited(visited)) == rest;
      }
    }
  }

  /** The deque keeps its links in order and gains exactly the new links that are neither
      visited nor queued, each once. */
  lemma EnqueueUnseenSpec(queue: seq<string>, visited: set<string>, links: seq<string>)
    ensures var r := EnqueueUnseen(queue, visited, links);
            queue <= r && NoDup(r[|queue|..])
            && (forall l | l in r[|queue|..] :: l in links && l !in visited && l !in queue)
            && (forall l | l in links && l !in visited :: l in r)
  {
    var unseen := Filter(links, Unvisited(visited));
    EnqueueUnseenIsPushBack(queue, visited, links);
    PushBackNewAdded(queue, unseen);
    forall l | l in links && l !in visited ensures l in EnqueueUnseen(queue, visited, links) {
      FilterKeeps(links, Unvisited(visited), l);
      PushBackNewMembership(queue, unseen, l);
    }
  }

  /** `for page in boost_pages: if page not in visited_links: links_to_visit.appendleft(page)`. */
  function PushFrontUnvisited(queue: seq<string>, visited: set<string>, pages: seq<string>): seq<string>
    decreases |pages|
  {
    if pages == [] then queue
    else PushFrontUnvisited(if pages[0] in visited then queue else [pages[0]] + queue, visited, pages[1..])
  }

  /** The rate check after a page: on every 15th page, when fewer than 5% of the pages
      visited were people (`collected / pages * 100 < 5`) and fewer than 10 links wait, the
      unvisited boost pages go to the front. */
  function Boost(queue: seq<string>, visited: set<string>, collected: nat, pagesVisited: nat): seq<string>
  {
    if pagesVisited % 15 == 0 && collected * 20 < pagesVisited && |queue| < 10 then
      PushFrontUnvisited(queue, visited, BOOST_PAGES)
    else queue
  }

  /** The boost puts the singers' category first and the actors' second, skipping a
      visited one but not one that is already queued, so it can queue a page twice. */
  lemma BoostSpec(queue: seq<string>, visited: set<string>, collected: nat, pagesVisited: nat)
    ensures var r := Boost(queue, visited, collected, pagesVisited);
            var actors := BOOST_PAGES[0];
            var singers := BOOST_PAGES[1];
            r == if pagesVisited % 15 == 0 && collected * 20 < pagesVisited && |queue| < 10
                 then (if singers in visited then [] else [singers]) + (if actors in visited then [] else [actors]) + queue
                 else queue
  {
    var actors := BOOST_PAGES[0];
    var singers := BOOST_PAGES[1];
    var q1 := if actors in visited then queue else [actors] + queue;
    assert BOOST_PAGES[1..] == [singers] && [singers][1..] == [];
    assert PushFrontUnvisited(queue, visited, BOOST_PAGES) == PushFrontUnvisited(q1, visited, [singers]);
    assert PushFrontUnvisited(q1, visited, [singers]) == (if singers in visited then q1 else [singers] + q1);
  }

  /** The rate condition in integers is the source's percentage condition. */
  lemma RateBelowFivePercent(collected: nat, pagesVisited: nat)
    requires pagesVisited > 0
    ensures (collected as real) / (pagesVisited as real) * 100.0 < 5.0 <==> collected * 20 < pagesVisited
  {
    var c, p := collected as real, pagesVisited as real;
    var rate := c / p;
    DivMul(c, p);
    ScaleLess(rate * 100.0, 5.0, p);
    assert rate * 100.0 * p == c * 100.0 by {
      assert rate * 100.0 * p == (rate * p) * 100.0;
    }
    assert c * 100.0 < 5.0 * p <==> collected * 20 < pagesVisited;
  }

  lemma DivMul(x: real, y: real)
    requires y > 0.0
    ensures x / y * y == x
  {
  }

  lemma ScaleLess(x: real, y: real, k: real)
    requires k > 0.0
    ensures x < y <==> x * k < y * k
  {
  }

  /** After a page: append its unseen links, then apply the rate check. */
  function Expand(s: CrawlState, newLinks: seq<string>): CrawlState
  {
    var q := EnqueueUnseen(s.queue, s.visited, newLinks);
    s.(queue := Boost(q, s.visited, s.collected, s.pagesVisited))
  }

  /** `is_person_aggressive` and `extract_smart_links` as the heuristics `crawl_improved`
      applies. */
  function FinalRules(search: Search): Heuristics
  {
    Heuristics(d => Aggressive(d, search), (d, u) => SmartLinks(d, u, IsPriority(search)))
  }

  /** The body of the `while` loop of `crawl_improved`: pop the first URL and skip it when
      it was visited; otherwise process it with the result of fetching it. */
  function Body(web: Web, rules: Heuristics, s: CrawlState): CrawlState
    requires s.queue != [] && s.session < POOL_SIZE
  {
    var url := s.queue[0];
    var s0 := s.(queue := s.queue[1..]);
    if url in s0.visited then s0
    else Process(rules, s0, url, FetchOutcome(web, s0, url))
  }

  /** An unvisited URL whose fetch gave `f`: count it and record the requests; on success
      mark it visited, collect it when it is a person, and expand its links. */
  function Process(rules: Heuristics, s: CrawlState, url: string, f: Fetched): CrawlState
    requires s.session < POOL_SIZE
  {
    var s1 := AfterFetch(s.(pagesVisited := s.pagesVisited + 1), url, f);
    match f.doc
    case None => s1
    case Some(doc) => Expand(Collect(s1, url, doc, rules.classify(doc)), rules.extract(doc, url))
  }

  /** Collecting a newly fetched page keeps the invariant, visits exactly that page, and
      counts and lists it exactly when it is a person. */
  lemma CollectSpec(s: CrawlState, url: string, doc: Document, v: Verdict)
    requires Inv(s) && url !in s.visited
    ensures var t := Collect(s, url, doc, v);
            Inv(t) && t.visited == s.visited + {url} && t.queue == s.queue
            && t.pagesVisited == s.pagesVisited && t.sent == s.sent && t.session == s.session
            && t.collected == (if v.isPerson then s.collected + 1 else s.collected)
            && t.people == (if v.isPerson then s.people + [Person(url, v.title)] else s.people)
            && s.files.Keys <= t.files.Keys
  {
    var s1 := s.(visited := s.visited + {url});
    if v.isPerson {
      var name := FileName(v.title, MAX_TITLE);
      SaveSpec(s1.files, name, doc);
      var t := Collect(s, url, doc, v);
      assert t.people == s.people + [Person(url, v.title)];
      forall i | 0 <= i < |t.people| ensures t.people[i].url in t.visited && FileName(t.people[i].title, MAX_TITLE) in t.files {
        if i < |s.people| {
          assert t.people[i] == s.people[i];
        }
      }
      forall i, j | 0 <= i < j < |t.people| ensures t.people[i].url != t.people[j].url {
        assert t.people[i] == s.people[i];
        if j == |s.people| {
          assert t.people[i].url in s.visited;
        }
      }
    }
  }

  /** Processing an unvisited URL keeps the invariant, counts at most one person, and
      either visits that URL, which the fetch found among the `known` ones, or changes
      neither the visited pages nor the deque. */
  lemma ProcessSpec(rules: Heuristics, known: set<string>, s: CrawlState, url: string, f: Fetched)
    requires Inv(s) && url !in s.visited && (f.doc.Some? ==> url in known)
    ensures var t := Process(rules, s, url, f);
            Inv(t) && s.visited <= t.visited
            && (t.collected == s.collected || t.collected == s.collected + 1)
            && ((t.visited == s.visited && t.queue == s.queue) || |known - t.visited| < |known - s.visited|)
  {
    var s1 := AfterFetch(s.(pagesVisited := s.pagesVisited + 1), url, f);
    assert Inv(s1);
    if f.doc.Some? {
      var doc := f.doc.value;
      CollectSpec(s1, url, doc, rules.classify(doc));
      FewerUnvisited(known, s.visited, url);
    }
  }

  /** One pass keeps the invariant, counts at most one person, and either visits a new page
      the web knows or leaves the visited pages alone and shortens the deque. */
  lemma BodySpec(web: Web, rules: Heuristics, s: CrawlState)
    requires Inv(s) && s.queue != []
    ensures var t := Body(web, rules, s);
            Inv(t) && s.visited <= t.visited
            && (t.collected == s.collected || t.collected == s.collected + 1)
            && ((t.visited == s.visited && |t.queue| < |s.queue|)
                || |web.Keys - t.visited| < |web.Keys - s.visited|)
  {
    var url := s.queue[0];
    var s0 := s.(queue := s.queue[1..]);
    if url !in s.visited {
      FetchSucceedsKnown(web, s0, url);
      ProcessSpec(rules, web.Keys, s0, url, FetchOutcome(web, s0, url));
    }
  }

  /** Visiting a known page leaves fewer known pages unvisited. */
  lemma FewerUnvisited(known: set<string>, visited: set<string>, url: string)
    requires url in known && url !in visited
    ensures |known - (visited + {url})| < |known - visited|
  {
    var rest := known - (visited + {url});
    assert known - visited == rest + {url};
    assert url !in rest;
  }

  /** Processing an unvisited URL counts it and records its requests; the URL becomes
      visited only when the fetch succeeded, and is then counted and listed as a person
      exactly when the rules say so. */
  lemma ProcessEffects(rules: Heuristics, s: CrawlState, url: string, f: Fetched)
    requires Inv(s) && url !in s.visited
    ensures var t := Process(rules, s, url, f);
            t.pagesVisited == s.pagesVisited + 1
            && t.sent == s.sent[url := Requests(s, url) + f.sent]
            && t.session == After(s.session, POOL_SIZE, f.sent)
            && t.visited == (if f.doc.Some? then s.visited + {url} else s.visited)
            && t.collected == (if f.doc.Some? && rules.classify(f.doc.value).isPerson then s.collected + 1 else s.collected)
            && (t.collected == s.collected + 1 ==> t.people == s.people + [Person(url, rules.classify(f.doc.value).title)])
  {
    var s1 := AfterFetch(s.(pagesVisited := s.pagesVisited + 1), url, f);
    assert Inv(s1);
    if f.doc.Some? {
      var doc := f.doc.value;
      CollectSpec(s1, url, doc, rules.classify(doc));
    }
  }

  /** A visited URL is dropped without a request and nothing else changes; an unvisited
      one is processed with at most three requests. */
  lemma BodyEffects(web: Web, rules: Heuristics, s: CrawlState)
    requires Inv(s) && s.queue != []
    ensures var url := s.queue[0];
            var f := FetchOutcome(web, s, url);
            (url in s.visited ==> Body(web, rules, s) == s.(queue := s.queue[1..]))
            && (url !in s.visited ==>
                  Body(web, rules, s) == Process(rules, s.(queue := s.queue[1..]), url, f) && f.sent <= MAX_RETRIES)
  {
    var url := s.queue[0];
    RetrySendsAtMost(FINAL_POLICY, MAX_RETRIES, Remaining(web, url, Requests(s, url)), 0);
  }

  /** The boost only puts unvisited boost pages in front of the deque. */
  lemma BoostFront(queue: seq<string>, visited: set<string>, collected: nat, pagesVisited: nat)
    ensures exists front ::
              Boost(queue, visited, collected, pagesVisited) == front + queue
              && (forall l | l in front :: l in BOOST_PAGES && l !in visited)
  {
    BoostSpec(queue, visited, collected, pagesVisited);
    var actors := BOOST_PAGES[0];
    var singers := BOOST_PAGES[1];
    var front := if pagesVisited % 15 == 0 && collected * 20 < pagesVisited && |queue| < 10
                 then (if singers in visited then [] else [singers]) + (if actors in visited then [] else [actors])
                 else [];
    assert Boost(queue, visited, collected, pagesVisited) == front + queue;
  }

  /** `after` is `before` with unvisited boost pages `front` put in front and links `added`
      of `newLinks` put behind, each once, none visited or already in `before`. */
  ghost predicate EnqueuedAs(after: seq<string>, before: seq<string>, visited: set<string>, newLinks: seq<string>,
                             front: seq<string>, added: seq<string>)
  {
    after == front + before + added
    && (forall l | l in front :: l in BOOST_PAGES && l !in visited)
    && NoDup(added)
    && (forall l | l in added :: l in newLinks && l !in visited && l !in before)
  }

  /** Expanding a state adds to the back of its deque links of `newLinks` that were neither
      visited nor queued, each once, and may only put unvisited boost pages at the front. */
  lemma ExpandEnqueues(s: CrawlState, newLinks: seq<string>)
    ensures exists front, added :: EnqueuedAs(Expand(s, newLinks).queue, s.queue, s.visited, newLinks, front, added)
  {
    var q := EnqueueUnseen(s.queue, s.visited, newLinks);
    EnqueueUnseenSpec(s.queue, s.visited, newLinks);
    var added := q[|s.queue|..];
    assert q == s.queue + added;
    BoostFront(q, s.visited, s.collected, s.pagesVisited);
    var front :| Boost(q, s.visited, s.collected, s.pagesVisited) == front + q
                 && (forall l | l in front :: l in BOOST_PAGES && l !in s.visited);
    assert Expand(s, newLinks).queue == front + s.queue + added;
    assert EnqueuedAs(Expand(s, newLinks).queue, s.queue, s.visited, newLinks, front, added);
  }

  /** The links processing adds to the back of the deque are links of the fetched page that
      were neither visited nor queued, each added once; apart from them the deque may only
      gain unvisited boost pages at the front. */
  lemma ProcessEnqueues(rules: Heuristics, s: CrawlState, url: string, f: Fetched)
    requires s.session < POOL_SIZE && f.doc.Some?
    ensures exists front, added ::
              EnqueuedAs(Process(rules, s, url, f).queue, s.queue, s.visited + {url}, rules.extract(f.doc.value, url),
                         front, added)
  {
    var doc := f.doc.value;
    var s1 := AfterFetch(s.(pagesVisited := s.pagesVisited + 1), url, f);
    var s3 := Collect(s1, url, doc, rules.classify(doc));
    assert s3.queue == s.queue && s3.visited == s.visited + {url};
    assert Process(rules, s, url, f) == Expand(s3, rules.extract(doc, url));
    ExpandEnqueues(s3, rules.extract(doc, url));
  }

  /** `ImprovedAccuracyCrawler`: the crawl state as fields, the three-session pool, and the
      rules its loop applies and the target it stops at, fixed at construction. */
  class Crawler {
    const web: Web
    const rules: Heuristics
    const target: int
    const pool: SessionPool
    var visited: set<string>
    var queue: seq<string>
    var collected: nat
    var people: seq<Person>
    var pagesVisited: nat
    var files: Dir
    var sent: map<string, nat>

    function State(): CrawlState
      reads this, pool
    {
      CrawlState(visited, queue, collected, people, pagesVisited, files, sent, pool.current)
    }

    ghost predicate PoolReady()
      reads this, pool
    {
      pool.Valid() && pool.size == POOL_SIZE
    }

    ghost predicate Valid()
      reads this, pool
    {
      PoolReady() && Inv(State())
    }

    /** `ImprovedAccuracyCrawler(target_count)`; `main` passes 1000 or `int(sys.argv[1])`,
        which may be any integer. The output directory `dir` is taken as it is found: it is
        created only when missing, and files already in it are kept. */
    constructor (web: Web, search: Search, targetCount: int, dir: Dir)
      ensures Valid() && fresh(pool)
      ensures this.web == web && rules == FinalRules(search) && target == targetCount
      ensures State() == CrawlState({}, [], 0, [], 0, dir, map[], 0)
    {
      this.web := web;
      rules := FinalRules(search);
      target := targetCount;
      pool := new SessionPool(POOL_SIZE);
      visited, queue, collected, people := {}, [], 0, [];
      pagesVisited, files, sent := 0, dir, map[];
    }

    /** `make_request(url)`: up to three attempts, each through the next session. */
    method FetchPage(url: string) returns (doc: Option<Document>)
      requires PoolReady()
      modifies this`sent, pool
      ensures PoolReady()
      ensures var f := FetchOutcome(web, old(State()), url);
              doc == f.doc && State() == AfterFetch(old(State()), url, f)
    {
      var k := if url in sent then sent[url] else 0;
      var d, _, n := MakeRequest(FINAL_POLICY, MAX_RETRIES, Remaining(web, url, k), pool);
      sent := sent[url := k + n];
      doc := d;
    }

    /** `save_person_page(content, title)`: write the page under its sanitised title cut to
        80 characters, replacing any file of that name. */
    method SavePersonPage(doc: Document, title: string) returns (ok: bool)
      modifies this`files
      ensures Saved(ok, files) == SaveOverwrite(old(files), FileName(title, MAX_TITLE), doc)
    {
      files := files[FileName(title, MAX_TITLE) := doc];
      ok := true;
    }

    /** Mark a fetched page visited, classify it, and save and list a person. */
    method RecordPage(url: string, doc: Document)
      modifies this`visited, this`collected, this`people, this`files
      ensures State() == Collect(old(State()), url, doc, rules.classify(doc))
    {
      visited := visited + {url};
      var verdict := rules.classify(doc);
      if verdict.isPerson {
        var ok := SavePersonPage(doc, verdict.title);
        if ok {
          collected := collected + 1;
          people := people + [Person(url, verdict.title)];
        }
      }
    }

    /** Append the unseen new links, then apply the rate check. */
    method ExpandLinks(newLinks: seq<string>)
      modifies this`queue
      ensures State() == Expand(old(State()), newLinks)
    {
      var q := queue;
      var i := 0;
      while i < |newLinks|
        invariant i <= |newLinks|
        invariant EnqueueUnseen(q, visited, newLinks[i..]) == EnqueueUnseen(queue, visited, newLinks)
      {
        assert newLinks[i..][1..] == newLinks[i + 1..];
        var link := newLinks[i];
        if link !in visited && link !in q {
          q := q + [link];
        }
        i := i + 1;
      }
      if pagesVisited % 15 == 0 && collected * 20 < pagesVisited && |q| < 10 {
        ghost var q0 := q;
        var j := 0;
        while j < |BOOST_PAGES|
          invariant j <= |BOOST_PAGES|
          invariant PushFrontUnvisited(q, visited, BOOST_PAGES[j..]) == PushFrontUnvisited(q0, visited, BOOST_PAGES)
        {
          assert BOOST_PAGES[j..][1..] == BOOST_PAGES[j + 1..];
          if BOOST_PAGES[j] !in visited {
            q := [BOOST_PAGES[j]] + q;
          }
          j := j + 1;
        }
      }
      queue := q;
    }

    /** One pass of the `while` loop of `crawl_improved`. */
    method LoopPass()
      requires PoolReady() && queue != []
      modifies this, pool
      ensures PoolReady()
      ensures State() == Body(web, rules, old(State()))
    {
      var url := queue[0];
      queue := queue[1..];
      if url in visited {
        return;
      }
      VisitUrl(url);
    }

    /** The pass for an unvisited URL: count it, fetch it, and on success collect it and
        expand its links. */
    method VisitUrl(url: string)
      requires PoolReady()
      modifies this, pool
      ensures PoolReady()
      ensures State() == Process(rules, old(State()), url, FetchOutcome(web, old(State()), url))
    {
      ghost var s := State();
      ghost var f := FetchOutcome(web, s, url);
      pagesVisited := pagesVisited + 1;
      ghost var s1 := State();
      assert s1 == s.(pagesVisited := s.pagesVisited + 1);
      assert Requests(s1, url) == Requests(s, url);
      var doc := FetchPage(url);
      ghost var s2 := State();
      assert s2 == AfterFetch(s1, url, f) && doc == f.doc;
      if doc.None? {
        return;
      }
      RecordPage(url, doc.value);
      var newLinks := rules.extract(doc.value, url);
      ExpandLinks(newLinks);
      assert State() == Expand(Collect(s2, url, doc.value, rules.classify(doc.value)), newLinks);
      assert Process(rules, s, url, f) == Expand(Collect(s2, url, doc.value, rules.classify(doc.value)), newLinks);
    }

    /** The seeding loop of `crawl_improved`. */
    method QueueStartPages()
      modifies this`queue
      ensures queue == old(queue) + START_PAGES
    {
      var i := 0;
      while i < |START_PAGES|
        invariant i <= |START_PAGES| && queue == old(queue) + START_PAGES[..i]
      {
        assert START_PAGES[..i + 1] == START_PAGES[..i] + [START_PAGES[i]];
        queue := queue + [START_PAGES[i]];
        i := i + 1;
      }
    }

    /** `crawl_improved`: queue the start pages, then pass through the loop while links wait
        and fewer than `target` people are collected. Whatever the web answers, the loop ends:
        each pass visits a new page the web knows or shortens the deque. A count that starts
        below the target never passes it; one that starts at or above it does not change. */
    method CrawlImproved()
      requires Valid()
      modifies this, pool
      ensures Valid()
      ensures queue == [] || collected >= target
      ensures old(collected) <= target ==> collected <= target
      ensures old(collected) >= target ==> collected == old(collected)
    {
      QueueStartPages();
      while queue != [] && collected < target
        invariant Valid()
        invariant old(collected) <= target ==> collected <= target
        invariant old(collected) >= target ==> collected == old(collected)
        decreases |web.Keys - visited|, |queue|
      {
        BodySpec(web, rules, State());
        LoopPass();
      }
    }
  }
}
