/** wiki_crawler.py: the first crawler. It seeds its deque with ten category pages, two list
    pages and the home page, and visits at most `min(target * 5, 5000)` pages. A URL is
    marked visited before it is fetched, through one session whose headers change after a
    403. Person pages are saved only under a file name not yet taken, and links are
    appended, visited or not queued, only while the target is not reached. */
module WikiCrawler {
  import opened Seqs
  import opened Strings
  import opened Page
  import opened Fetch
  import opened Store
  import opened Links
  import opened Frontier

  const SEED_PAGES: seq<string> := [
    "wiki/Categoria:Nascidos_em_1990",
    "wiki/Categoria:Nascidos_em_1985",
    "wiki/Categoria:Nascidos_em_1980",
    "wiki/Categoria:Nascidos_em_1975",
    "wiki/Categoria:Nascidos_em_1970",
    "wiki/Categoria:Políticos_do_Brasil",
    "wiki/Categoria:Atores_do_Brasil",
    "wiki/Categoria:Cantores_do_Brasil",
    "wiki/Categoria:Escritores_do_Brasil",
    "wiki/Categoria:Jogadores_de_futebol_do_Brasil",
    "wiki/Lista_de_presidentes_do_Brasil",
    "wiki/Lista_de_governadores_de_São_Paulo",
    ""]

  const MAX_RETRIES: nat := 3
  const MAX_TITLE: nat := 100

  /** `max_pages_to_visit = min(target_count * 5, 5000)`. */
  function MaxPages(target: int): (m: int)
    ensures m <= 5 * target && m <= 5000
    ensures m == 5 * target || m == 5000
  {
    if target * 5 < 5000 then target * 5 else 5000
  }

  // ---- seeding ----

  /** The seeding loop of `crawl`: a seed is resolved against the base URL, and the empty
      seed stands for the base URL itself. */
  function SeedUrl(seed: string): string
  {
    if seed != "" then UrlJoin(seed) else BASE_URL
  }

  /** The special case for the empty seed agrees with `urljoin`, which also resolves the
      empty reference to the base URL; a path under `wiki/` is appended to the base URL. */
  lemma SeedUrlSpec(seed: string)
    ensures SeedUrl(seed) == UrlJoin(seed)
    ensures seed == "" ==> SeedUrl(seed) == BASE_URL
    ensures StartsWith(seed, "wiki/") ==> SeedUrl(seed) == BASE_URL + seed
  {
    if StartsWith(seed, "wiki/") {
      assert seed[0] == 'w';
      assert !StartsWith(seed, "http://") by {
        assert seed[0] != "http://"[0];
      }
      assert !StartsWith(seed, "https://") by {
        assert seed[0] != "https://"[0];
      }
    }
  }

  // ---- is_person_page ----

  const EXCLUSIONS: seq<string> := [
    "lista de", "categoria:", "anexo:", "portal:", "predefinição:",
    "ficheiro:", "ajuda:", "wikipédia:", "especial:", "usuário:",
    "guerra", "batalha", "revolução", "conflito",
    "cidade", "município", "estado", "país", "continente",
    "rio", "lago", "montanha", "serra", "ilha",
    "empresa", "companhia", "corporação", "organização",
    "universidade", "faculdade", "escola", "instituto",
    "hospital", "museu", "biblioteca", "teatro",
    "filme", "livro", "álbum", "canção", "obra",
    "teoria", "método", "sistema", "conceito",
    "prêmio", "campeonato", "torneio", "copa",
    "eleições", "referendo", "plebiscito"]

  const PERSON_FIELDS: seq<string> := [
    "nascimento", "nascido", "nascida",
    "morte", "falecimento", "falecido", "falecida",
    "cônjuge", "esposo", "esposa", "marido", "mulher",
    "filho", "filha", "pais", "mãe", "pai",
    "ocupação", "profissão", "cargo", "atividade",
    "nacionalidade", "natural de", "cidadania",
    "nome completo", "nome artístico", "pseudônimo"]

  const NON_PERSON_FIELDS: seq<string> := [
    "fundação", "fundado", "criação", "criado",
    "sede", "localização", "endereço",
    "população", "área", "altitude", "clima",
    "gênero musical", "editora", "gravadora",
    "lançamento", "publicação", "estreia",
    "diretor", "produção", "roteiro",
    "desenvolvedor", "publicador", "plataforma"]

  const BIO_PATTERNS: seq<string> := [
    @"\bé um[a]? (.*?)(?:brasileiro|portuguesa|americano|inglês)",
    @"\bfoi um[a]? (.*?)(?:brasileiro|portuguesa|americano|inglês)",
    @"nasceu em \d{1,2} de \w+ de \d{4}",
    @"nascido[a]? em \d{1,2} de \w+ de \d{4}",
    @"morreu em \d{1,2} de \w+ de \d{4}",
    @"faleceu em \d{1,2} de \w+ de \d{4}",
    @"\(\d{1,2} de \w+ de \d{4}.*?\)",
    @"é um[a]? (?:ator|atriz|político|política|cantor|cantora|escritor|escritora)",
    @"foi um[a]? (?:ator|atriz|político|política|cantor|cantora|escritor|escritora)"]

  /** `[-–—]`: hyphen, en dash or em dash. */
  predicate IsWideDash(c: char)
  {
    c == '-' || c == '\U{2013}' || c == '\U{2014}'
  }

  /** `\s*` matching all of `w`. */
  predicate Blank(w: string)
  {
    forall k | 0 <= k < |w| :: IsSpace(w[k])
  }

  /** `\(\d{4}\s*[-–—]\s*` matching `t[i..e]`. */
  predicate SpacedDashSpan(t: string, i: nat, e: nat)
  {
    i + 6 <= e <= |t| && t[i] == '(' && FourDigitsAt(t, i + 1)
    && exists j | i + 5 <= j < e :: Blank(t[i + 5..j]) && IsWideDash(t[j]) && Blank(t[j + 1..e])
  }

  /** `re.search(r'\(\d{4}\s*[-–—]\s*\d{4}\)', t)` or `re.search(r'\(\d{4}\s*[-–—]\s*\)', t)`:
      a life span in parentheses, closed or open, with optional blanks around the dash. */
  predicate SpacedYearRange(t: string)
  {
    exists i: nat, e: nat | i < e <= |t| ::
      SpacedDashSpan(t, i, e) && ((e + 5 <= |t| && FourDigitsAt(t, e) && t[e + 4] == ')') || (e < |t| && t[e] == ')'))
  }

  /** Every life span the other crawlers recognise in a title, this one recognises too. */
  lemma SpacedYearRangeWidens(t: string)
    requires TitleYearRange(t)
    ensures SpacedYearRange(t)
  {
    var i: nat :| i < |t| && (ParenRangeAt(t, i) || ParenOpenRangeAt(t, i));
    var e := i + 6;
    assert Blank(t[i + 5..i + 5]) && IsWideDash(t[i + 5]) && Blank(t[i + 6..e]);
    assert SpacedDashSpan(t, i, e);
  }

  /** Blanks and an em dash are accepted here, though the other crawlers' pattern rejects
      them. */
  lemma SpacedEmDashRange()
    ensures SpacedYearRange("(1940 \U{2014} 2022)") && !TitleYearRange("(1940 \U{2014} 2022)")
  {
    var t := "(1940 \U{2014} 2022)";
    assert Blank(t[5..6]) && IsWideDash(t[6]) && Blank(t[7..8]);
    assert SpacedDashSpan(t, 0, 8);
    assert FourDigitsAt(t, 8) && t[12] == ')';
    forall i: nat | i < |t| ensures !ParenRangeAt(t, i) && !ParenOpenRangeAt(t, i) {
      if i != 0 {
        assert t[i] != '(';
      } else {
        assert !IsDash(t[5]);
      }
    }
  }

  /** The infobox holds a non-person field. */
  predicate InfoboxVeto(d: Document)
  {
    d.infobox.Some? && CountContained(Lower(d.infobox.value), NON_PERSON_FIELDS) > 0
  }

  /** The infobox holds at least two person fields. */
  predicate InfoboxConfirms(d: Document)
  {
    d.infobox.Some? && CountContained(Lower(d.infobox.value), PERSON_FIELDS) >= 2
  }

  /** The first `<p>` of the article body, cut to 300 characters and lower-cased, matches a
      biography pattern. */
  predicate ParagraphConfirms(d: Document, search: Search)
  {
    var p := ContentFirstPara(d);
    p.Some? && AnySearch(search, BIO_PATTERNS, Lower(Take(p.value, 300)))
  }

  /** `is_person_page`: no title gives `(False, "")`; an exclusion term in the lower-cased
      title gives False, before anything else; then a life span in the title gives True; then
      any non-person field of the infobox gives False whatever the person fields, and two
      person fields give True; every other case, no infobox included, is decided by the
      first paragraph. */
  function IsPersonPage(d: Document, search: Search): (v: Verdict)
    ensures d.title.None? ==> v == Verdict(false, "")
    ensures d.title.Some? ==> v.title == d.title.value
    ensures v.isPerson <==>
              d.title.Some? && !ContainsAny(Lower(d.title.value), EXCLUSIONS)
              && (SpacedYearRange(d.title.value)
                  || (!InfoboxVeto(d) && (InfoboxConfirms(d) || ParagraphConfirms(d, search))))
  {
    match d.title
    case None => Verdict(false, "")
    case Some(title) =>
      if ContainsAny(Lower(title), EXCLUSIONS) then Verdict(false, title)
      else if SpacedYearRange(title) then Verdict(true, title)
      else
        var byInfobox :=
          match d.infobox
          case None => None
          case Some(box) =>
            var text := Lower(box);
            if CountContained(text, NON_PERSON_FIELDS) > 0 then Some(false)
            else if CountContained(text, PERSON_FIELDS) >= 2 then Some(true)
            else None;
        if byInfobox.Some? then Verdict(byInfobox.value, title)
        else
          match ContentFirstPara(d)
          case None => Verdict(false, title)
          case Some(p) => Verdict(AnySearch(search, BIO_PATTERNS, Lower(Take(p, 300))), title)
  }

  /** The exclusion terms are substrings, not words: "mário" contains "rio", so Mário de
      Andrade is rejected whatever the rest of his page says. */
  lemma ExclusionInsideName(d: Document, search: Search)
    requires d.title == Some("Mário de Andrade")
    ensures IsPersonPage(d, search) == Verdict(false, "Mário de Andrade")
  {
    var t := "Mário de Andrade";
    assert Lower(t)[2..5] == "rio";
    assert OccursAt(Lower(t), "rio", 2);
    assert EXCLUSIONS[19] == "rio" && "rio" in EXCLUSIONS;
    ContainsAnyIff(Lower(t), EXCLUSIONS);
    assert ContainsAny(Lower(t), EXCLUSIONS);
  }

  // ---- is_valid_link, extract_links ----

  const EXCLUDED_NAMESPACES: seq<string> := [
    "Ficheiro:", "Categoria:", "Predefinição:", "Ajuda:",
    "Wikipédia:", "MediaWiki:", "Especial:", "Portal:",
    "Usuário:", "Discussão:"]

  /** `is_valid_link`: a non-empty `/wiki/` href that names none of the ten namespaces
      (case-sensitively). The name-pattern test that follows returns True on both branches,
      so it does not change the answer and is not modelled. */
  function IsValidLink(href: string): (r: bool)
    ensures r <==> StartsWith(href, "/wiki/") && forall ns | ns in EXCLUDED_NAMESPACES :: !Contains(href, ns)
  {
    ContainsAnyIff(href, EXCLUDED_NAMESPACES);
    if href == "" || !StartsWith(href, "/wiki/") then false
    else !ContainsAny(href, EXCLUDED_NAMESPACES)
  }

  /** Every anchor the article-link lookup returns passes the filter. */
  lemma ArticleHrefsValid(h: string)
    requires IsArticleHref(h)
    ensures IsValidLink(h)
  {
    ArticleHrefAvoids(h, EXCLUDED_NAMESPACES);
  }

  const LINK_TRIGGERS: seq<string> := ["nasceu", "morreu", "filho", "casou", "foi um", "é um"]

  /** The category branch: the valid links among the first 100 article anchors of the
      member list, resolved, in order, repeats included. */
  function CategoryLinks(members: seq<string>): seq<string>
  {
    Kept(Take(ArticleLinks(members), 100), IsValidLink, UrlJoin)
  }

  /** The other branch, before de-duplication: the valid article links of those of the first
      five `<p>` of the body whose lower-cased text mentions a trigger word. */
  function ParagraphLinks(d: Document): seq<string>
  {
    match d.content
    case None => []
    case Some(c) => TriggeredLinks(Take(c.paragraphs, 5), LINK_TRIGGERS, IsValidLink, UrlJoin)
  }

  /** `extract_links(soup, current_url)`: on a URL containing "Categoria:" whose page has a
      member list, the category links; otherwise `list(set(links))[:30]` of the paragraph
      links. */
  function ExtractedLinks(d: Document, currentUrl: string): seq<string>
  {
    if Contains(currentUrl, "Categoria:") && d.members.Some? then CategoryLinks(d.members.value)
    else Take(Distinct(ParagraphLinks(d)), 30)
  }

  /** The category branch returns at most 100 links, each the absolute URL of a valid
      article anchor of the member list. */
  lemma CategoryLinksSpec(members: seq<string>)
    ensures var r := CategoryLinks(members);
            |r| <= 100 && forall l | l in r :: exists h | h in members && IsArticleHref(h) && IsValidLink(h) :: l == ORIGIN + h
  {
    var anchors := Take(ArticleLinks(members), 100);
    forall l | l in CategoryLinks(members)
      ensures exists h | h in members && IsArticleHref(h) && IsValidLink(h) :: l == ORIGIN + h
    {
      KeptFrom(anchors, IsValidLink, UrlJoin, l);
      var h :| h in anchors && IsValidLink(h) && l == UrlJoin(h);
      assert h in ArticleLinks(members);
      ResolvedArticle(h);
    }
  }

  /** Each paragraph link is the absolute URL of a valid article anchor of one of the first
      five paragraphs that mention a trigger word. */
  lemma ParagraphLinksSpec(d: Document)
    ensures forall l | l in ParagraphLinks(d) ::
              d.content.Some? && exists b, h | b in Take(d.content.value.paragraphs, 5) && h in b.hrefs ::
                ContainsAny(Lower(b.text), LINK_TRIGGERS) && IsArticleHref(h) && IsValidLink(h) && l == ORIGIN + h
  {
    if d.content.Some? {
      var blocks := Take(d.content.value.paragraphs, 5);
      TriggeredLinksFrom(blocks, LINK_TRIGGERS, IsValidLink, UrlJoin);
      forall l | l in ParagraphLinks(d)
        ensures exists b, h | b in blocks && h in b.hrefs ::
                  ContainsAny(Lower(b.text), LINK_TRIGGERS) && IsArticleHref(h) && IsValidLink(h) && l == ORIGIN + h
      {
        var b, h :| b in blocks && h in b.hrefs && ContainsAny(Lower(b.text), LINK_TRIGGERS)
                    && IsArticleHref(h) && IsValidLink(h) && l == UrlJoin(h);
        ResolvedArticle(h);
      }
    }
  }

  /** Outside the category branch the result has at most 30 links and none twice, all
      paragraph links; when there are at most 30 distinct paragraph links, it has all of
      them. */
  lemma ExtractedLinksSpec(d: Document, currentUrl: string)
    ensures var r := ExtractedLinks(d, currentUrl);
            !(Contains(currentUrl, "Categoria:") && d.members.Some?) ==>
              |r| <= 30 && NoDup(r) && Elems(r) <= Elems(ParagraphLinks(d))
              && (|Elems(ParagraphLinks(d))| <= 30 ==> Elems(r) == Elems(ParagraphLinks(d)))
  {
    var all := Distinct(ParagraphLinks(d));
    var r := Take(all, 30);
    assert forall i, j | 0 <= i < j < |r| :: r[i] == all[i] && r[j] == all[j];
    assert Elems(r) <= Elems(all);
    if |Elems(ParagraphLinks(d))| <= 30 {
      NoDupCard(all);
      assert r == all;
    }
  }

  /** The loops of `extract_links`. */
  method ExtractLinks(d: Document, currentUrl: string) returns (links: seq<string>)
    ensures links == ExtractedLinks(d, currentUrl)
  {
    if Contains(currentUrl, "Categoria:") && d.members.Some? {
      links := AppendKept([], Take(ArticleLinks(d.members.value), 100), IsValidLink, UrlJoin);
      assert links == CategoryLinks(d.members.value);
      return;
    }
    links := [];
    if d.content.Some? {
      links := CollectTriggered([], Take(d.content.value.paragraphs, 5), LINK_TRIGGERS, IsValidLink, UrlJoin);
    }
    assert links == ParagraphLinks(d);
    links := Take(Distinct(links), 30);
  }

  // ---- the crawl ----

  /** An entry of `person_pages`. */
  datatype Person = Person(url: string, title: string)

  /** The fields of `WikipediaCrawler` that the crawl changes, and the requests sent so far
      to each URL. */
  datatype CrawlState = CrawlState(
    visited: set<string>,
    queue: seq<string>,
    collected: nat,
    people: seq<Person>,
    pagesVisited: nat,
    files: Dir,
    sent: map<string, nat>)

  /** Every collected person is listed once, under a visited URL, and has a file of its own. */
  predicate PeopleInv(s: CrawlState)
  {
    |s.people| == s.collected
    && (forall i | 0 <= i < |s.people| :: s.people[i].url in s.visited && FileName(s.people[i].title, MAX_TITLE) in s.files)
    && (forall i, j | 0 <= i < j < |s.people| ::
          s.people[i].url != s.people[j].url && FileName(s.people[i].title, MAX_TITLE) != FileName(s.people[j].title, MAX_TITLE))
  }

  /** Between passes: the people invariant; each visited URL counts as one page; and the
      URLs requested are exactly the visited ones, each with at most three requests, so a
      URL whose fetch failed is never requested again. */
  predicate Inv(s: CrawlState)
  {
    PeopleInv(s) && s.pagesVisited == |s.visited|
    && s.sent.Keys == s.visited && (forall u | u in s.sent :: s.sent[u] <= MAX_RETRIES)
  }

  function Requests(s: CrawlState, url: string): nat
  {
    if url in s.sent then s.sent[url] else 0
  }

  /** `make_request(url)` with this crawler's policy, against what the web still answers. */
  function FetchOutcome(web: Web, s: CrawlState, url: string): Fetched
  {
    Retry(WIKI_POLICY, MAX_RETRIES, Remaining(web, url, Requests(s, url)), 0)
  }

  /** A URL the crawl has not visited was never requested: its fetch sees the web's first
      answers for it, and sends at most three requests. */
  lemma FirstFetch(web: Web, s: CrawlState, url: string)
    requires Inv(s) && url !in s.visited
    ensures FetchOutcome(web, s, url) == Retry(WIKI_POLICY, MAX_RETRIES, if url in web then web[url] else [], 0)
    ensures FetchOutcome(web, s, url).sent <= MAX_RETRIES
  {
    assert Requests(s, url) == 0;
    if url in web {
      assert web[url][0..] == web[url];
    }
    RetrySendsAtMost(WIKI_POLICY, MAX_RETRIES, Remaining(web, url, 0), 0);
  }

  /** A person page is saved under its title cut to 100 characters; only when no file of
      that name exists is it counted and listed. */
  function Collect(s: CrawlState, url: string, doc: Document, v: Verdict): CrawlState
  {
    if v.isPerson then
      var saved := SaveIfNew(s.files, FileName(v.title, MAX_TITLE), doc);
      if saved.ok then s.(files := saved.dir, collected := s.collected + 1, people := s.people + [Person(url, v.title)])
      else s
    else s
  }

  /** The body of the `while` loop of `crawl`: pop the first URL and skip it when it was
      visited; otherwise process it with the result of fetching it. */
  function Body(web: Web, rules: Heuristics, target: int, s: CrawlState): CrawlState
    requires s.queue != []
  {
    var url := s.queue[0];
    var s0 := s.(queue := s.queue[1..]);
    if url in s0.visited then s0
    else Process(rules, target, s0, url, FetchOutcome(web, s0, url))
  }

  /** An unvisited URL whose fetch gave `f`: visit it, whatever the fetch gave, and expand it
      when the fetch succeeded. */
  function Process(rules: Heuristics, target: int, s: CrawlState, url: string, f: Fetched): CrawlState
  {
    var s1 := Visit(s, url, f);
    match f.doc
    case None => s1
    case Some(doc) => Expand(rules, target, s1, url, doc)
  }

  /** Count one page, mark the URL visited and record the requests of its fetch. */
  function Visit(s: CrawlState, url: string, f: Fetched): CrawlState
  {
    s.(pagesVisited := s.pagesVisited + 1, visited := s.visited + {url}, sent := s.sent[url := Requests(s, url) + f.sent])
  }

  /** Collect a fetched page and, while the target is not reached, append its unvisited
      links. */
  function Expand(rules: Heuristics, target: int, s: CrawlState, url: string, doc: Document): CrawlState
  {
    var s1 := Collect(s, url, doc, rules.classify(doc));
    if s1.collected < target then s1.(queue := PushBackUnvisited(s1.queue, s1.visited, rules.extract(doc, url)))
    else s1
  }

  /** Collecting keeps the people invariant and changes only the files and the people: a
      person is counted exactly when the page is a person and its file name is free. */
  lemma CollectSpec(s: CrawlState, url: string, doc: Document, v: Verdict)
    requires PeopleInv(s) && url in s.visited && forall p | p in s.people :: p.url != url
    ensures var t := Collect(s, url, doc, v);
            PeopleInv(t) && t.visited == s.visited && t.queue == s.queue
            && t.pagesVisited == s.pagesVisited && t.sent == s.sent
            && (t.collected == s.collected + 1 <==> v.isPerson && FileName(v.title, MAX_TITLE) !in s.files)
            && t.people == (if t.collected == s.collected + 1 then s.people + [Person(url, v.title)] else s.people)
            && t.files == (if t.collected == s.collected + 1 then s.files[FileName(v.title, MAX_TITLE) := doc] else s.files)
  {
    var name := FileName(v.title, MAX_TITLE);
    SaveSpec(s.files, name, doc);
    if v.isPerson && name !in s.files {
      var t := Collect(s, url, doc, v);
      assert t.people == s.people + [Person(url, v.title)];
      forall i | 0 <= i < |t.people| ensures t.people[i].url in t.visited && FileName(t.people[i].title, MAX_TITLE) in t.files {
        if i < |s.people| {
          assert t.people[i] == s.people[i];
        }
      }
      forall i, j | 0 <= i < j < |t.people|
        ensures t.people[i].url != t.people[j].url && FileName(t.people[i].title, MAX_TITLE) != FileName(t.people[j].title, MAX_TITLE)
      {
        assert t.people[i] == s.people[i];
        if j == |s.people| {
          assert s.people[i] in s.people;
        }
      }
    }
  }

  /** Visiting one new URL adds one to the number of visited URLs. */
  lemma VisitOneMore(visited: set<string>, url: string)
    requires url !in visited
    ensures |visited + {url}| == |visited| + 1
  {
  }

  /** Visiting an unvisited URL keeps the invariant when its fetch sent at most three
      requests, and changes neither the deque nor the people. */
  lemma VisitSpec(s: CrawlState, url: string, f: Fetched)
    requires Inv(s) && url !in s.visited && f.sent <= MAX_RETRIES
    ensures var t := Visit(s, url, f);
            Inv(t) && t.visited == s.visited + {url} && t.pagesVisited == s.pagesVisited + 1
            && t.queue == s.queue && t.collected == s.collected && t.people == s.people && t.files == s.files
            && forall p | p in t.people :: p.url != url
  {
    var t := Visit(s, url, f);
    VisitOneMore(s.visited, url);
    assert s.sent.Keys + {url} == t.visited;
    assert forall p | p in s.people :: p.url in s.visited by {
      forall p | p in s.people ensures p.url in s.visited {
        var i :| 0 <= i < |s.people| && s.people[i] == p;
      }
    }
  }

  /** Expanding a visited page no person is listed under keeps the invariant, counts at
      most one person, never passes the target, and visits nothing more. */
  lemma ExpandSpec(rules: Heuristics, target: int, s: CrawlState, url: string, doc: Document)
    requires Inv(s) && url in s.visited && (forall p | p in s.people :: p.url != url) && s.collected < target
    ensures var t := Expand(rules, target, s, url, doc);
            Inv(t) && t.visited == s.visited && t.pagesVisited == s.pagesVisited
            && t.collected <= target && (t.collected == s.collected || t.collected == s.collected + 1)
  {
    CollectSpec(s, url, doc, rules.classify(doc));
  }

  /** Processing an unvisited URL keeps the invariant; it visits that URL and counts one
      page whatever the fetch gave, counts at most one person and never passes the target. */
  lemma ProcessSpec(rules: Heuristics, target: int, s: CrawlState, url: string, f: Fetched)
    requires Inv(s) && url !in s.visited && f.sent <= MAX_RETRIES && s.collected < target
    ensures var t := Process(rules, target, s, url, f);
            Inv(t) && t.visited == s.visited + {url} && t.pagesVisited == s.pagesVisited + 1
            && t.collected <= target && (t.collected == s.collected || t.collected == s.collected + 1)
  {
    VisitSpec(s, url, f);
    if f.doc.Some? {
      ExpandSpec(rules, target, Visit(s, url, f), url, f.doc.value);
    }
  }

  /** What processing does to the deque: links are appended only after a successful fetch
      that leaves the count below the target, and then exactly the page's links that are not
      visited, in order, whether or not they are already queued. */
  lemma ProcessQueue(rules: Heuristics, target: int, s: CrawlState, url: string, f: Fetched)
    ensures var t := Process(rules, target, s, url, f);
            t.queue == if f.doc.Some? && t.collected < target
                       then s.queue + Filter(rules.extract(f.doc.value, url), Unvisited(s.visited + {url}))
                       else s.queue
  {
    if f.doc.Some? {
      var doc := f.doc.value;
      var s2 := Collect(Visit(s, url, f), url, doc, rules.classify(doc));
      assert s2.queue == s.queue && s2.visited == s.visited + {url};
      PushBackUnvisitedSpec(s2.queue, s2.visited, rules.extract(doc, url));
    }
  }

  /** One pass keeps the invariant and never passes the target; it either skips a visited
      URL, shortening the deque and changing nothing else, or visits one more page. */
  lemma BodySpec(web: Web, rules: Heuristics, target: int, s: CrawlState)
    requires Inv(s) && s.queue != [] && s.collected < target
    ensures var t := Body(web, rules, target, s);
            Inv(t) && t.collected <= target && s.visited <= t.visited
            && ((s.queue[0] in s.visited && t == s.(queue := s.queue[1..]))
                || (s.queue[0] !in s.visited && t.visited == s.visited + {s.queue[0]} && t.pagesVisited == s.pagesVisited + 1))
  {
    var url := s.queue[0];
    var s0 := s.(queue := s.queue[1..]);
    if url !in s.visited {
      FirstFetch(web, s0, url);
      ProcessSpec(rules, target, s0, url, FetchOutcome(web, s0, url));
    }
  }

  /** `is_person_page` and `extract_links` as the heuristics `crawl` applies. */
  function WikiRules(search: Search): Heuristics
  {
    Heuristics(d => IsPersonPage(d, search), (d, u) => ExtractedLinks(d, u))
  }

  /** `WikipediaCrawler`: the crawl state as fields, the target and the page cap, and the
      heuristics its loop applies, fixed at construction. */
  class Crawler {
    const web: Web
    const rules: Heuristics
    const target: int
    const maxPages: int
    var visited: set<string>
    var queue: seq<string>
    var collected: nat
    var people: seq<Person>
    var pagesVisited: nat
    var files: Dir
    var sent: map<string, nat>

    function State(): CrawlState
      reads this
    {
      CrawlState(visited, queue, collected, people, pagesVisited, files, sent)
    }

    ghost predicate Valid()
      reads this
    {
      Inv(State())
    }

    /** `WikipediaCrawler(target_count)`, over the output directory `dir` as it is found:
        the directory is created only when missing, and files already in it are kept. */
    constructor (web: Web, search: Search, targetCount: int, dir: Dir)
      ensures Valid()
      ensures this.web == web && rules == WikiRules(search)
      ensures target == targetCount && maxPages == MaxPages(targetCount)
      ensures State() == CrawlState({}, [], 0, [], 0, dir, map[])
    {
      this.web := web;
      rules := WikiRules(search);
      target := targetCount;
      maxPages := MaxPages(targetCount);
      visited, queue, collected, people := {}, [], 0, [];
      pagesVisited, files, sent := 0, dir, map[];
    }

    /** `make_request(url)`: up to three attempts through the one session. */
    method FetchPage(url: string) returns (doc: Option<Document>)
      modifies this`sent
      ensures var f := FetchOutcome(web, old(State()), url);
              doc == f.doc && sent == old(sent)[url := Requests(old(State()), url) + f.sent]
    {
      var k := if url in sent then sent[url] else 0;
      var d, _, n := MakeRequest(WIKI_POLICY, MAX_RETRIES, Remaining(web, url, k), null);
      sent := sent[url := k + n];
      doc := d;
    }

    /** `save_page(content, title)`: write the page under its sanitised title cut to 100
        characters, unless a file of that name exists, which reports failure. */
    method SavePage(doc: Document, title: string) returns (ok: bool)
      modifies this`files
      ensures Saved(ok, files) == SaveIfNew(old(files), FileName(title, MAX_TITLE), doc)
    {
      var name := FileName(title, MAX_TITLE);
      if name in files {
        return false;
      }
      files := files[name := doc];
      ok := true;
    }

    /** Classify a fetched page, and save and list a person. */
    method RecordPage(url: string, doc: Document)
      modifies this`collected, this`people, this`files
      ensures State() == Collect(old(State()), url, doc, rules.classify(doc))
    {
      var verdict := rules.classify(doc);
      if verdict.isPerson {
        var ok := SavePage(doc, verdict.title);
        if ok {
          collected := collected + 1;
          people := people + [Person(url, verdict.title)];
        }
      }
    }

    /** `for link in new_links: if link not in visited_links: links_to_visit.append(link)`. */
    method EnqueueLinks(newLinks: seq<string>)
      modifies this`queue
      ensures queue == PushBackUnvisited(old(queue), visited, newLinks)
    {
      var q := queue;
      var i := 0;
      while i < |newLinks|
        invariant i <= |newLinks|
        invariant PushBackUnvisited(q, visited, newLinks[i..]) == PushBackUnvisited(queue, visited, newLinks)
      {
        assert newLinks[i..][1..] == newLinks[i + 1..];
        if newLinks[i] !in visited {
          q := q + [newLinks[i]];
        }
        i := i + 1;
      }
      queue := q;
    }

    /** Count the page, mark it visited, and fetch it. */
    method VisitPage(url: string) returns (doc: Option<Document>)
      modifies this`pagesVisited, this`visited, this`sent
      ensures var f := FetchOutcome(web, old(State()), url);
              doc == f.doc && State() == Visit(old(State()), url, f)
    {
      pagesVisited := pagesVisited + 1;
      visited := visited + {url};
      doc := FetchPage(url);
    }

    /** Collect a fetched page and, while the target is not reached, enqueue its links. */
    method ExpandPage(url: string, doc: Document)
      modifies this`collected, this`people, this`files, this`queue
      ensures State() == Expand(rules, target, old(State()), url, doc)
    {
      RecordPage(url, doc);
      if collected < target {
        var newLinks := rules.extract(doc, url);
        EnqueueLinks(newLinks);
      }
    }

    /** One pass of the `while` loop of `crawl`. */
    method LoopPass()
      requires queue != []
      modifies this
      ensures State() == Body(web, rules, target, old(State()))
    {
      var url := queue[0];
      queue := queue[1..];
      if url in visited {
        return;
      }
      var doc := VisitPage(url);
      if doc.Some? {
        ExpandPage(url, doc.value);
      }
    }

    /** The seeding loop of `crawl`. */
    method QueueSeeds()
      modifies this`queue
      ensures queue == old(queue) + MapSeq(SEED_PAGES, SeedUrl)
    {
      var i := 0;
      while i < |SEED_PAGES|
        invariant i <= |SEED_PAGES| && queue == old(queue) + MapSeq(SEED_PAGES[..i], SeedUrl)
      {
        assert MapSeq(SEED_PAGES[..i + 1], SeedUrl) == MapSeq(SEED_PAGES[..i], SeedUrl) + [SeedUrl(SEED_PAGES[i])];
        var seed := SEED_PAGES[i];
        if seed != "" {
          queue := queue + [UrlJoin(seed)];
        } else {
          queue := queue + [BASE_URL];
        }
        i := i + 1;
      }
      assert SEED_PAGES[..i] == SEED_PAGES;
    }

    /** `crawl`: queue the seeds, then pass through the loop while links wait, fewer people
        than the target are collected and fewer pages than the cap are visited. */
    method Crawl()
      requires Valid()
      modifies this
      ensures Valid()
      ensures queue == [] || collected >= target || pagesVisited >= maxPages
      ensures old(collected) <= target ==> collected <= target
      ensures old(pagesVisited) <= maxPages ==> pagesVisited <= maxPages
      ensures old(collected) >= target || old(pagesVisited) >= maxPages
              ==> collected == old(collected) && people == old(people) && files == old(files)
                  && visited == old(visited) && pagesVisited == old(pagesVisited)
    {
      QueueSeeds();
      while queue != [] && collected < target && pagesVisited < maxPages
        invariant Valid()
        invariant old(collected) <= target ==> collected <= target
        invariant old(pagesVisited) <= maxPages ==> pagesVisited <= maxPages
        invariant old(collected) >= target || old(pagesVisited) >= maxPages
                  ==> collected == old(collected) && people == old(people) && files == old(files)
                      && visited == old(visited) && pagesVisited == old(pagesVisited)
        decreases maxPages - pagesVisited, |queue|
      {
        BodySpec(web, rules, target, State());
        LoopPass();
      }
    }
  }
}
