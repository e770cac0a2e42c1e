/** optimized_wiki_crawler.py: a crawler seeded with category and list pages that keeps a
    deque of relative links, fetches each page once through a pool of three sessions, saves
    the pages it classifies as biographies, and pushes up to five name-like links to the
    front and three other links to the back of the deque after every page. */
module OptimizedCrawler {
  import opened Seqs
  import opened Strings
  import opened Page
  import opened Sessions
  import opened Store
  import opened Links
  import opened Frontier

  const SEED_PAGES: seq<string> := [
    "wiki/Categoria:Nascidos_em_1990", "wiki/Categoria:Nascidos_em_1985",
    "wiki/Categoria:Nascidos_em_1980", "wiki/Categoria:Políticos_do_Brasil",
    "wiki/Categoria:Atores_do_Brasil", "wiki/Categoria:Cantores_do_Brasil",
    "wiki/Categoria:Escritores_do_Brasil", "wiki/Categoria:Jogadores_de_futebol_do_Brasil",
    "wiki/Lista_de_presidentes_do_Brasil", "wiki/Lista_de_governadores_de_São_Paulo"]

  const TARGET_COUNT: nat := 1000
  const MAX_PAGES_TO_VISIT: nat := 3000
  const MAX_RUNTIME: nat := 3600
  const MAX_CONSECUTIVE_FAILURES: nat := 20
  const POOL_SIZE: nat := 3
  const MAX_TITLE: nat := 100

  const HIGH_PRIORITY_PATTERNS: seq<string> := [@"/wiki/[A-Z][a-z]+_[A-Z][a-z]+", @"/wiki/[A-Z][a-z]+_[a-z]+_[A-Z][a-z]+"]

  const EXCLUDE_URL_PATTERNS: seq<string> := [
    @"/wiki/Lista_de_", @"/wiki/Categoria:", @"/wiki/Anexo:", @"/wiki/\d{4}$", @"/wiki/\d{1,2}_de_",
    @"/wiki/.*[Gg]uerra.*", @"/wiki/.*[Bb]atalha.*", @"/wiki/.*[Cc]idade.*", @"/wiki/.*[Ee]stado.*",
    @"/wiki/.*[Pp]aís.*", @"/wiki/.*[Uu]niversidade.*", @"/wiki/.*[Ee]mpresa.*", @"/wiki/.*[Ff]ilme.*",
    @"/wiki/.*[Ll]ivro.*"]

  const FAST_EXCLUSIONS: seq<string> := [
    "lista de", "categoria:", "anexo:", "portal:", "guerra", "batalha",
    "cidade", "estado", "país", "município", "empresa", "organização",
    "universidade", "escola", "hospital", "museu", "rio", "montanha",
    "mortes em", "nascidos em", "bibliografia", "cronologia",
    "sistema", "método", "teoria", "conceito", "movimento"]

  const CRITICAL_PERSON_FIELDS: seq<string> := [
    "nascimento:", "morte:", "nasceu em", "morreu em", "cônjuge:", "esposa:", "marido:", "filhos:",
    "ocupação:", "profissão:", "nome completo:"]

  const CRITICAL_NON_PERSON_FIELDS: seq<string> := [
    "fundação:", "criação:", "sede:", "população:", "área:", "gênero musical:", "editora:", "lançamento:",
    "duração:", "formato:", "tipo:"]

  const QUICK_BIO_PATTERNS: seq<string> := [
    @"\bé um (ator|político|escritor|cantor|jogador|atleta|cientista|médico|advogado)",
    @"\bé uma (atriz|política|escritora|cantora|jogadora|atleta|cientista|médica|advogada)",
    @"\bfoi um (ator|político|escritor|cantor|jogador|atleta|cientista|médico)",
    @"\bfoi uma (atriz|política|escritora|cantora|jogadora|atleta|cientista|médica)",
    @"\(.*\d{4}.*[-–].*\d{4}.*\)",
    @"\(.*\d{4}.*[-–].*\)"]

  const BIO_KEYWORDS: seq<string> := ["nasceu", "morreu", "casou", "filho de", "político", "ator", "escritor", "cantor"]

  // ---- is_person_page_fast ----

  /** A word character of `s` at index `p` (false outside the string). */
  predicate IsWordAt(s: string, p: int)
  {
    0 <= p < |s| && IsWordChar(s[p])
  }

  /** `\b` at index `p`. */
  predicate WordBoundary(s: string, p: nat)
  {
    IsWordAt(s, p - 1) != IsWordAt(s, p)
  }

  /** `\b\d{4}[-–]\d{4}\b` matches at index `i`. */
  predicate LifeSpanAt(s: string, i: nat)
  {
    i + 9 <= |s| && WordBoundary(s, i) && FourDigitsAt(s, i) && IsDash(s[i + 4])
    && FourDigitsAt(s, i + 5) && WordBoundary(s, i + 9)
  }

  /** `\b\d{4}[-–]\b` matches at index `i`. */
  predicate BirthYearAt(s: string, i: nat)
  {
    i + 5 <= |s| && WordBoundary(s, i) && FourDigitsAt(s, i) && IsDash(s[i + 4]) && WordBoundary(s, i + 5)
  }

  /** One of the two title date patterns matches somewhere in the title. */
  predicate TitleHasDates(t: string)
  {
    exists i: nat | i < |t| :: LifeSpanAt(t, i) || BirthYearAt(t, i)
  }

  /** The second date pattern matches wherever the first does, and it needs a word character
      right after the dash: "(1950–)" does not match it, whatever its comment says. */
  lemma BirthYearPatternShape(s: string, i: nat)
    ensures LifeSpanAt(s, i) ==> BirthYearAt(s, i)
    ensures BirthYearAt(s, i) ==> i + 5 < |s| && IsWordChar(s[i + 5])
  {
  }

  /** A title whose only year is followed by a dash and a closing parenthesis carries no
      date for this crawler. */
  lemma OpenLifeSpanNotRecognised()
    ensures !TitleHasDates("Ana (1950-)")
  {
    var t := "Ana (1950-)";
    forall i: nat | i < |t| ensures !LifeSpanAt(t, i) && !BirthYearAt(t, i) {
      if FourDigitsAt(t, i) {
        assert i == 5;
        assert !IsWordAt(t, 9) && !IsWordAt(t, 10);
      }
    }
  }

  /** `_quick_paragraph_check`: a biography phrase in the first 200 characters, lower-cased,
      of the article body's first paragraph. */
  predicate QuickParagraphCheck(d: Document, search: Search)
  {
    match ContentFirstPara(d)
    case None => false
    case Some(p) => AnySearch(search, QUICK_BIO_PATTERNS, Lower(Take(p, 200)))
  }

  /** The title passes the exclusion list. */
  predicate TitleAdmitted(d: Document)
  {
    d.title.Some? && !ContainsAny(Lower(d.title.value), FAST_EXCLUSIONS)
  }

  /** `is_person_page_fast`: missing title and title exclusions first, then the title dates,
      then the infobox (a non-person field vetoes, two person fields confirm, one defers to
      the paragraph check), and non-person by default. */
  function IsPersonPageFast(d: Document, search: Search): (r: bool)
    ensures r ==> TitleAdmitted(d)
    ensures TitleAdmitted(d) && TitleHasDates(d.title.value) ==> r
    ensures r && !TitleHasDates(d.title.value) ==>
              d.infobox.Some? && !ContainsAny(Lower(d.infobox.value), CRITICAL_NON_PERSON_FIELDS)
              && CountContained(Lower(d.infobox.value), CRITICAL_PERSON_FIELDS) >= 1
    ensures r && !TitleHasDates(d.title.value) && CountContained(Lower(d.infobox.value), CRITICAL_PERSON_FIELDS) < 2 ==>
              QuickParagraphCheck(d, search)
    ensures (TitleAdmitted(d) && d.infobox.Some? && !ContainsAny(Lower(d.infobox.value), CRITICAL_NON_PERSON_FIELDS)
             && CountContained(Lower(d.infobox.value), CRITICAL_PERSON_FIELDS) >= 2) ==> r
    ensures (TitleAdmitted(d) && d.infobox.Some? && !ContainsAny(Lower(d.infobox.value), CRITICAL_NON_PERSON_FIELDS)
             && CountContained(Lower(d.infobox.value), CRITICAL_PERSON_FIELDS) == 1 && QuickParagraphCheck(d, search)) ==> r
  {
    match d.title
    case None => false
    case Some(title) =>
      if ContainsAny(Lower(title), FAST_EXCLUSIONS) then false
      else if TitleHasDates(title) then true
      else
        match d.infobox
        case None => false
        case Some(box) =>
          var text := Lower(box);
          var score := CountContained(text, CRITICAL_PERSON_FIELDS);
          if ContainsAny(text, CRITICAL_NON_PERSON_FIELDS) then false
          else if score >= 2 then true
          else if score == 1 then QuickParagraphCheck(d, search)
          else false
  }

  // ---- should_visit_url and extract_smart_links ----

  /** `should_visit_url`: a `/wiki/` link that no exclusion pattern matches. The loop over the
      high-priority patterns returns True either way, so it never changes the answer. */
  function ShouldVisitUrl(href: string, search: Search): (r: bool)
    ensures r <==> StartsWith(href, "/wiki/") && !AnySearch(search, EXCLUDE_URL_PATTERNS, href)
  {
    if href == "" || !StartsWith(href, "/wiki/") then false
    else if AnySearch(search, EXCLUDE_URL_PATTERNS, href) then false
    else if AnySearch(search, HIGH_PRIORITY_PATTERNS, href) then true
    else true
  }

  function Visitable(search: Search): string -> bool
  {
    h => ShouldVisitUrl(h, search)
  }

  function IsHighPriority(search: Search): string -> bool
  {
    l => AnySearch(search, HIGH_PRIORITY_PATTERNS, l)
  }

  /** `extract_smart_links(soup, current_url)`: on a category page the first 50 article
      anchors of the body; elsewhere the anchors of the first 5 paragraphs that mention a
      biography keyword and the first 10 anchors of each of the first 3 lists, without
      duplicates. Only links `should_visit_url` accepts are kept. */
  function SmartLinks(d: Document, currentLink: string, search: Search): seq<string>
  {
    match d.content
    case None => []
    case Some(c) =>
      if Contains(currentLink, "Categoria:") then Kept(Take(ArticleLinks(c.hrefs), 50), Visitable(search), Id)
      else
        Distinct(TriggeredLinks(Take(c.paragraphs, 5), BIO_KEYWORDS, Visitable(search), Id)
                 + CappedLinks(Take(c.lists, 3), 10, Visitable(search)))
  }

  /** Every extracted link passes `should_visit_url`; a category page yields at most 50
      links, any other page a duplicate-free list of at most 5 paragraphs' links plus 30. */
  lemma SmartLinksSpec(d: Document, currentLink: string, search: Search)
    ensures forall l | l in SmartLinks(d, currentLink, search) :: IsArticleHref(l) && ShouldVisitUrl(l, search)
    ensures d.content.Some? && Contains(currentLink, "Categoria:") ==> |SmartLinks(d, currentLink, search)| <= 50
    ensures d.content.Some? && !Contains(currentLink, "Categoria:") ==> NoDup(SmartLinks(d, currentLink, search))
  {
    if d.content.Some? {
      var c := d.content.value;
      var keep := Visitable(search);
      if Contains(currentLink, "Categoria:") {
        forall l | l in SmartLinks(d, currentLink, search) ensures IsArticleHref(l) && ShouldVisitUrl(l, search) {
          KeptFrom(Take(ArticleLinks(c.hrefs), 50), keep, Id, l);
          var h :| h in Take(ArticleLinks(c.hrefs), 50) && keep(h) && l == h;
          assert h in ArticleLinks(c.hrefs);
        }
      } else {
        var fromParas := TriggeredLinks(Take(c.paragraphs, 5), BIO_KEYWORDS, keep, Id);
        var fromLists := CappedLinks(Take(c.lists, 3), 10, keep);
        TriggeredLinksFrom(Take(c.paragraphs, 5), BIO_KEYWORDS, keep, Id);
        CappedLinksKept(Take(c.lists, 3), 10, keep);
        forall l | l in SmartLinks(d, currentLink, search) ensures IsArticleHref(l) && ShouldVisitUrl(l, search) {
          assert l in Elems(fromParas + fromLists);
          assert l in fromParas || l in fromLists;
        }
      }
    }
  }

  /** The loops of `extract_smart_links`. */
  method ExtractSmartLinks(d: Document, currentLink: string, search: Search) returns (links: seq<string>)
    ensures links == SmartLinks(d, currentLink, search)
  {
    if d.content.None? {
      return [];
    }
    var c := d.content.value;
    if Contains(currentLink, "Categoria:") {
      links := AppendKept([], Take(ArticleLinks(c.hrefs), 50), Visitable(search), Id);
      assert [] + Kept(Take(ArticleLinks(c.hrefs), 50), Visitable(search), Id) == links;
      return;
    }
    links := CollectTriggered([], Take(c.paragraphs, 5), BIO_KEYWORDS, Visitable(search), Id);
    assert links == TriggeredLinks(Take(c.paragraphs, 5), BIO_KEYWORDS, Visitable(search), Id);
    links := CollectCapped(links, Take(c.lists, 3), 10, Visitable(search));
    links := Distinct(links);
  }

  // ---- the crawler ----

  /** `check_safety_limits`: within the run time and below the page budget. */
  predicate SafetyLimitsOk(elapsedSecs: nat, visitedCount: nat)
  {
    !(elapsedSecs > MAX_RUNTIME) && !(visitedCount >= MAX_PAGES_TO_VISIT)
  }

  /** The title under which a person page is saved. */
  function SavedTitle(d: Document): string
  {
    match d.title
    case Some(t) => t
    case None => "Sem título"
  }

  /** The deque after one round of enqueueing: at most 5 links that `isPriority` accepts
      pushed to the front, one by one, then at most 3 others pushed to the back, each only if
      the deque does not hold it yet. */
  function Enqueue(queue: seq<string>, newLinks: seq<string>, isPriority: string -> bool): seq<string>
  {
    PushBackNew(PushFrontNew(queue, Take(Filter(newLinks, isPriority), 5)), Take(FilterOut(newLinks, isPriority), 3))
  }

  /** Enqueueing grows the deque by at most 8 links, adds exactly the selected links, and
      never makes it hold a link twice. */
  lemma EnqueueSpec(queue: seq<string>, newLinks: seq<string>, isPriority: string -> bool)
    ensures var r := Enqueue(queue, newLinks, isPriority);
            |queue| <= |r| <= |queue| + 8
            && Elems(r) == Elems(queue) + Elems(Take(Filter(newLinks, isPriority), 5))
                                        + Elems(Take(FilterOut(newLinks, isPriority), 3))
            && (NoDup(queue) ==> NoDup(r))
  {
    var front := Take(Filter(newLinks, isPriority), 5);
    var back := Take(FilterOut(newLinks, isPriority), 3);
    assert |front| <= 5 && |back| <= 3;
    PushFrontNewKeepsSuffix(queue, front);
    PushFrontNewElems(queue, front);
    if NoDup(queue) {
      PushFrontNewNoDup(queue, front);
    }
    var mid := PushFrontNew(queue, front);
    PushBackNewSpec(mid, back);
  }

  /** `appendleft` one by one puts the name-like links at the front in reverse order. */
  lemma PriorityLinksReversed(queue: seq<string>, a: string, b: string)
    requires a != b && a !in queue && b !in queue
    ensures PushFrontNew(queue, [a, b]) == [b, a] + queue
  {
    assert [a, b][0] == a && [a, b][1..] == [b];
    var q1 := [a] + queue;
    assert PushFrontNew(queue, [a, b]) == PushFrontNew(q1, [b]);
    assert b !in q1;
    assert [b][0] == b && [b][1..] == [];
    assert PushFrontNew(q1, [b]) == PushFrontNew([b] + q1, []);
    assert [b] + q1 == [b, a] + queue;
  }

  /** The fields of `OptimizedWikipediaCrawler` that the crawl changes: the URL sets, the
      deque, the counter of saved people, the output directory, the requests sent so far to
      each URL (the next one gets the next recorded outcome) and the pool's session index. */
  datatype CrawlState = CrawlState(
    visited: set<string>,
    processed: set<string>,
    personPages: set<string>,
    nonPersonPages: set<string>,
    queue: seq<string>,
    collected: nat,
    files: Dir,
    sent: map<string, nat>,
    session: nat)

  /** What the crawler keeps true between loop passes. */
  predicate Inv(s: CrawlState)
  {
    s.session < POOL_SIZE
    && s.processed == s.visited
    && s.personPages + s.nonPersonPages == s.visited && s.personPages !! s.nonPersonPages
    && s.collected <= |s.personPages|
    && NoDup(s.queue)
  }

  function Requests(s: CrawlState, url: string): nat
  {
    if url in s.sent then s.sent[url] else 0
  }

  /** The result of `process_single_page`: the new state, the returned title and the
      returned links. */
  datatype Visited = Visited(state: CrawlState, result: Option<string>, newLinks: seq<string>)

  /** `is_person_page_fast` and `extract_smart_links` as the values `process_single_page`
      calls, and the test that sends a new link to the front of the deque. The crawl is
      stated over these values, whatever they are; `OptimizedRules` fixes them. */
  datatype Rules = Rules(
    isPerson: Document -> bool,
    extract: (Document, string) -> seq<string>,
    isPriority: string -> bool)

  function OptimizedRules(search: Search): Rules
  {
    Rules(d => IsPersonPageFast(d, search), (d, l) => SmartLinks(d, l, search), IsHighPriority(search))
  }

  /** A request to `full` was sent through the next session of the pool. */
  function Sent(s: CrawlState, full: string): (r: CrawlState)
    requires s.session < POOL_SIZE
    ensures r == s.(sent := r.sent, session := r.session)
    ensures r.sent == s.sent[full := Requests(s, full) + 1] && r.session < POOL_SIZE
  {
    s.(sent := s.sent[full := Requests(s, full) + 1], session := Step(s.session, POOL_SIZE))
  }

  /** A page `raise_for_status` accepted: mark it visited and processed, save it when it is
      a person page (the title is returned) and file it as a non-person page otherwise. */
  function Accept(s: CrawlState, full: string, doc: Document, isPerson: bool, links: seq<string>): Visited
  {
    var s2 := s.(visited := s.visited + {full}, processed := s.processed + {full});
    if isPerson then
      var title := SavedTitle(doc);
      var saved := SaveKeepExisting(s2.files, FileName(title, MAX_TITLE), doc);
      var s3 := s2.(files := saved.dir);
      if saved.ok then Visited(s3.(personPages := s3.personPages + {full}), Some(title), links)
      else Visited(s3, None, links)
    else Visited(s2.(nonPersonPages := s2.nonPersonPages + {full}), None, links)
  }

  /** `process_single_page(currentLink)`: a URL seen before is skipped without a request;
      otherwise one session is drawn and one request sent. A response that `raise_for_status`
      accepts is recorded by `Accept`, with the new links extracted while the target is not
      met. A failed request changes nothing else. */
  function Visit(web: Web, rules: Rules, s: CrawlState, currentLink: string): Visited
    requires s.session < POOL_SIZE
  {
    var full := UrlJoin(currentLink);
    if full in s.visited || full in s.processed then Visited(s, None, [])
    else
      var o := Respond(web, full, Requests(s, full));
      if o.TransportError? || RaisesForStatus(o.status) then Visited(Sent(s, full), None, [])
      else
        var links := if s.collected < TARGET_COUNT then rules.extract(o.doc, currentLink) else [];
        Accept(Sent(s, full), full, o.doc, rules.isPerson(o.doc), links)
  }

  /** Accepting a new page keeps the invariant and adds it to the visited pages, leaving the
      deque, the counter, the requests and the pool alone. */
  lemma AcceptKeepsInv(s: CrawlState, full: string, doc: Document, isPerson: bool, links: seq<string>)
    requires Inv(s) && full !in s.visited
    ensures var t := Accept(s, full, doc, isPerson, links).state;
            Inv(t) && t.visited == s.visited + {full} && |t.visited| == |s.visited| + 1
            && t.queue == s.queue && t.collected == s.collected
  {
    var s2 := s.(visited := s.visited + {full}, processed := s.processed + {full});
    ClassifyNew(s.personPages, s.nonPersonPages, s.visited, full);
    if isPerson {
      var saved := SaveKeepExisting(s2.files, FileName(SavedTitle(doc), MAX_TITLE), doc);
      var t := s2.(files := saved.dir, personPages := s.personPages + {full});
      assert Accept(s, full, doc, isPerson, links).state == t;
      assert Inv(t);
    } else {
      var t := s2.(nonPersonPages := s.nonPersonPages + {full});
      assert Accept(s, full, doc, isPerson, links).state == t;
      assert Inv(t);
    }
  }

  /** Filing a new page under either class keeps the classes a partition of the visited
      pages, and adds one to that class and to the visited pages. */
  lemma ClassifyNew(person: set<string>, other: set<string>, visited: set<string>, x: string)
    requires person + other == visited && person !! other && x !in visited
    ensures (person + {x}) + other == visited + {x} && (person + {x}) !! other
    ensures person + (other + {x}) == visited + {x} && person !! (other + {x})
    ensures |person + {x}| == |person| + 1 && |visited + {x}| == |visited| + 1
  {
  }

  /** Accepting a new page reports a person exactly for a person page, which is then saved
      under its title and counted among the person pages; the links are passed on. */
  lemma AcceptReportsPerson(s: CrawlState, full: string, doc: Document, isPerson: bool, links: seq<string>)
    requires full !in s.personPages
    ensures var v := Accept(s, full, doc, isPerson, links);
            v.newLinks == links
            && (v.result.Some? <==> isPerson)
            && (v.result.Some? ==>
                  v.state.personPages == s.personPages + {full}
                  && |v.state.personPages| == |s.personPages| + 1
                  && FileName(v.result.value, MAX_TITLE) in v.state.files)
            && (v.result.None? ==> v.state.personPages == s.personPages)
            && s.files.Keys <= v.state.files.Keys
  {
    if isPerson {
      var s2 := s.(visited := s.visited + {full}, processed := s.processed + {full});
      SaveSpec(s2.files, FileName(SavedTitle(doc), MAX_TITLE), doc);
      assert |s.personPages + {full}| == |s.personPages| + 1;
    }
  }

  /** Processing a page keeps the invariant and the deque and counter, and visits at most one
      new URL; a page seen before changes nothing. */
  lemma VisitKeepsInv(web: Web, rules: Rules, s: CrawlState, currentLink: string)
    requires Inv(s)
    ensures var v := Visit(web, rules, s, currentLink);
            Inv(v.state) && v.state.queue == s.queue && v.state.collected == s.collected
            && s.visited <= v.state.visited && |v.state.visited| <= |s.visited| + 1
            && (UrlJoin(currentLink) in s.visited ==> v.state == s && v.result.None? && v.newLinks == [])
  {
    var full := UrlJoin(currentLink);
    var v := Visit(web, rules, s, currentLink);
    if full in s.visited {
      assert v == Visited(s, None, []);
    } else {
      var o := Respond(web, full, Requests(s, full));
      var s1 := Sent(s, full);
      if o.TransportError? || RaisesForStatus(o.status) {
        assert v == Visited(s1, None, []);
      } else {
        var links := if s.collected < TARGET_COUNT then rules.extract(o.doc, currentLink) else [];
        assert v == Accept(s1, full, o.doc, rules.isPerson(o.doc), links);
        AcceptKeepsInv(s1, full, o.doc, rules.isPerson(o.doc), links);
      }
    }
  }

  /** A URL not visited before is sent one request, and is marked visited exactly when the
      response passes `raise_for_status`: a failed request leaves it unvisited. */
  lemma VisitMarksOnSuccess(web: Web, rules: Rules, s: CrawlState, currentLink: string)
    requires Inv(s) && UrlJoin(currentLink) !in s.visited
    ensures var v := Visit(web, rules, s, currentLink);
            var full := UrlJoin(currentLink);
            var o := Respond(web, full, Requests(s, full));
            (full in v.state.visited <==> o.Response? && !RaisesForStatus(o.status))
            && v.state.sent == s.sent[full := Requests(s, full) + 1]
  {
    var full := UrlJoin(currentLink);
    var o := Respond(web, full, Requests(s, full));
    var s1 := Sent(s, full);
    if o.Response? && !RaisesForStatus(o.status) {
      var links := if s.collected < TARGET_COUNT then rules.extract(o.doc, currentLink) else [];
      var v := Accept(s1, full, o.doc, rules.isPerson(o.doc), links);
      assert Visit(web, rules, s, currentLink) == v;
      assert full in v.state.visited && v.state.sent == s1.sent;
    } else {
      assert Visit(web, rules, s, currentLink) == Visited(s1, None, []);
    }
  }

  /** A page yields a person only when it was never visited, is a person page by the
      crawler's rules and was fetched; it is then saved and added to the person pages. Links
      are returned only for a page visited now while the target is not met. */
  lemma VisitReportsPerson(web: Web, rules: Rules, s: CrawlState, currentLink: string)
    requires Inv(s)
    ensures var v := Visit(web, rules, s, currentLink);
            var full := UrlJoin(currentLink);
            var o := Respond(web, full, Requests(s, full));
            (v.result.Some? <==> full !in s.visited && o.Response? && !RaisesForStatus(o.status) && rules.isPerson(o.doc))
            && (v.result.Some? ==>
                  v.state.personPages == s.personPages + {full}
                  && |v.state.personPages| == |s.personPages| + 1
                  && FileName(v.result.value, MAX_TITLE) in v.state.files)
            && (v.newLinks != [] ==> full !in s.visited && full in v.state.visited && s.collected < TARGET_COUNT)
            && s.files.Keys <= v.state.files.Keys
  {
    var full := UrlJoin(currentLink);
    var v := Visit(web, rules, s, currentLink);
    if full in s.visited {
      assert v == Visited(s, None, []);
    } else {
      var o := Respond(web, full, Requests(s, full));
      var s1 := Sent(s, full);
      if o.TransportError? || RaisesForStatus(o.status) {
        assert v == Visited(s1, None, []);
      } else {
        var links := if s.collected < TARGET_COUNT then rules.extract(o.doc, currentLink) else [];
        assert v == Accept(s1, full, o.doc, rules.isPerson(o.doc), links);
        AcceptReportsPerson(s1, full, o.doc, rules.isPerson(o.doc), links);
      }
    }
  }

  /** Why `run_crawler_optimized` stopped. */
  datatype Stop = QueueEmpty | TargetReached | SafetyLimit | TooManyFailures

  /** The loop condition of `run_crawler_optimized`, as the reason it fails, if it does. */
  function StopReason(queue: seq<string>, collected: nat, elapsedSecs: nat, visitedCount: nat, failures: nat)
    : (r: Option<Stop>)
    ensures r.None? <==> queue != [] && collected < TARGET_COUNT && SafetyLimitsOk(elapsedSecs, visitedCount)
                         && failures < MAX_CONSECUTIVE_FAILURES
    ensures r == Some(TooManyFailures) ==> failures >= MAX_CONSECUTIVE_FAILURES
    ensures r == Some(TargetReached) ==> collected >= TARGET_COUNT
  {
    if queue == [] then Some(QueueEmpty)
    else if collected >= TARGET_COUNT then Some(TargetReached)
    else if !SafetyLimitsOk(elapsedSecs, visitedCount) then Some(SafetyLimit)
    else if failures >= MAX_CONSECUTIVE_FAILURES then Some(TooManyFailures)
    else None
  }

  /** The outcome of one pass: the stop reason or the new state and failure streak. */
  datatype Pass = Stopped(reason: Stop) | Continued(state: CrawlState, failures: nat)

  /** One evaluation of the loop condition and, when it holds, one pass of the loop body. */
  function Round(web: Web, rules: Rules, s: CrawlState, elapsedSecs: nat, failures: nat): Pass
    requires s.session < POOL_SIZE
  {
    match StopReason(s.queue, s.collected, elapsedSecs, |s.visited|, failures)
    case Some(reason) => Stopped(reason)
    case None => LoopBody(web, rules, s, failures)
  }

  /** The loop body: pop the first link, process it, count a returned non-empty title as a
      saved person (resetting the failure streak) and anything else as a failure, and
      enqueue the new links. */
  function LoopBody(web: Web, rules: Rules, s: CrawlState, failures: nat): (p: Pass)
    requires s.session < POOL_SIZE && s.queue != []
    ensures p.Continued?
  {
    var v := Visit(web, rules, s.(queue := s.queue[1..]), s.queue[0]);
    var saved := v.result.Some? && v.result.value != "";
    var t := v.state.(queue := Enqueue(v.state.queue, v.newLinks, rules.isPriority),
                      collected := if saved then s.collected + 1 else s.collected);
    Continued(t, if saved then 0 else failures + 1)
  }

  /** A pass keeps the invariant, visits at most one new page, counts at most one person
      (only one it has just saved) and otherwise extends the failure streak. */
  lemma LoopBodySpec(web: Web, rules: Rules, s: CrawlState, failures: nat)
    requires Inv(s) && s.queue != []
    ensures var p := LoopBody(web, rules, s, failures);
            Inv(p.state) && |p.state.visited| <= |s.visited| + 1
            && ((p.state.collected == s.collected + 1 && p.failures == 0)
                || (p.state.collected == s.collected && p.failures == failures + 1))
  {
    NoDupTail(s.queue);
    var s0 := s.(queue := s.queue[1..]);
    assert Inv(s0);
    VisitKeepsInv(web, rules, s0, s.queue[0]);
    VisitReportsPerson(web, rules, s0, s.queue[0]);
    var v := Visit(web, rules, s0, s.queue[0]);
    EnqueueSpec(v.state.queue, v.newLinks, rules.isPriority);
  }

  /** A pass of the loop never counts beyond the target or visits beyond the page budget,
      and moves the measure (people still wanted, failures still allowed) down. */
  lemma RoundSpec(web: Web, rules: Rules, s: CrawlState, elapsedSecs: nat, failures: nat)
    requires Inv(s) && s.collected <= TARGET_COUNT && |s.visited| <= MAX_PAGES_TO_VISIT
    ensures match Round(web, rules, s, elapsedSecs, failures)
            case Stopped(_) => true
            case Continued(t, f) =>
              Inv(t) && t.collected <= TARGET_COUNT && |t.visited| <= MAX_PAGES_TO_VISIT
              && f <= MAX_CONSECUTIVE_FAILURES && failures < MAX_CONSECUTIVE_FAILURES
              && ((t.collected == s.collected + 1 && f == 0) || (t.collected == s.collected && f == failures + 1))
  {
    if StopReason(s.queue, s.collected, elapsedSecs, |s.visited|, failures).None? {
      LoopBodySpec(web, rules, s, failures);
    }
  }

  /** `OptimizedWikipediaCrawler`: the crawl state as fields, the session pool, and the
      rules its methods apply (`is_person_page_fast`, `extract_smart_links` and the
      high-priority test), fixed at construction. */
  class Crawler {
    const web: Web
    const rules: Rules
    const pool: SessionPool
    var visited: set<string>
    var processed: set<string>
    var personPages: set<string>
    var nonPersonPages: set<string>
    var queue: seq<string>
    var collected: nat
    var files: Dir
    var sent: map<string, nat>

    function State(): CrawlState
      reads this, pool
    {
      CrawlState(visited, processed, personPages, nonPersonPages, queue, collected, files, sent, pool.current)
    }

    /** The pool hands out the crawler's three sessions. */
    ghost predicate PoolReady()
      reads this, pool
    {
      pool.Valid() && pool.size == POOL_SIZE
    }

    ghost predicate Valid()
      reads this, pool
    {
      PoolReady() && Inv(State())
    }

    /** `OptimizedWikipediaCrawler()`, over the output directory `dir` as it is found: the
        directory is created only when missing, and files already in it are kept. */
    constructor (web: Web, search: Search, dir: Dir)
      ensures Valid() && fresh(pool)
      ensures this.web == web && rules == OptimizedRules(search)
      ensures State() == CrawlState({}, {}, {}, {}, [], 0, dir, map[], 0)
    {
      this.web := web;
      rules := OptimizedRules(search);
      pool := new SessionPool(POOL_SIZE);
      visited, processed, personPages, nonPersonPages := {}, {}, {}, {};
      queue, collected, files, sent := [], 0, dir, map[];
    }

    /** `process_single_page(current_link)`. */
    method ProcessSinglePage(currentLink: string) returns (result: Option<string>, newLinks: seq<string>)
      requires PoolReady()
      modifies this, pool
      ensures PoolReady()
      ensures Visited(State(), result, newLinks) == Visit(web, rules, old(State()), currentLink)
    {
      ghost var s0 := State();
      ghost var v := Visit(web, rules, s0, currentLink);
      result, newLinks := None, [];
      var full := UrlJoin(currentLink);
      if full in visited || full in processed {
        assert v == Visited(s0, None, []);
        return;
      }
      var _ := pool.Next();
      var requests := if full in sent then sent[full] else 0;
      var o := Respond(web, full, requests);
      sent := sent[full := requests + 1];
      ghost var s1 := Sent(s0, full);
      assert State() == s1;
      if o.TransportError? || RaisesForStatus(o.status) {
        assert v == Visited(s1, None, []);
        return;
      }
      result, newLinks := RecordPage(full, o.doc, currentLink);
      assert v == Accept(s1, full, o.doc, rules.isPerson(o.doc),
                         if s1.collected < TARGET_COUNT then rules.extract(o.doc, currentLink) else []);
    }

    /** The part of `process_single_page` after `raise_for_status` accepted the response for
        `full`: mark it visited and processed, classify it, save a person page, and extract
        the new links while the target is not met. */
    method RecordPage(full: string, doc: Document, currentLink: string) returns (result: Option<string>, newLinks: seq<string>)
      modifies this`visited, this`processed, this`personPages, this`nonPersonPages, this`files
      ensures Visited(State(), result, newLinks)
           == Accept(old(State()), full, doc, rules.isPerson(doc),
                     if collected < TARGET_COUNT then rules.extract(doc, currentLink) else [])
    {
      visited := visited + {full};
      processed := processed + {full};
      result, newLinks := None, [];
      if rules.isPerson(doc) {
        var title := SavedTitle(doc);
        var ok := SavePage(doc, title);
        if ok {
          result := Some(title);
          personPages := personPages + {full};
        }
      } else {
        nonPersonPages := nonPersonPages + {full};
      }
      if collected < TARGET_COUNT {
        newLinks := rules.extract(doc, currentLink);
      }
    }

    /** `save_page(content, title)`: write the page under its sanitised title unless that
        file exists; either way the call reports success. */
    method SavePage(doc: Document, title: string) returns (ok: bool)
      modifies this`files
      ensures Saved(ok, files) == SaveKeepExisting(old(files), FileName(title, MAX_TITLE), doc)
    {
      var name := FileName(title, MAX_TITLE);
      if name in files {
        return true;
      }
      files := files[name := doc];
      ok := true;
    }

    /** The enqueueing part of the loop body: split the new links by the high-priority
        patterns, then push them with `appendleft` and `append`. */
    method EnqueueLinks(newLinks: seq<string>)
      modifies this`queue
      ensures queue == Enqueue(old(queue), newLinks, rules.isPriority)
    {
      var priority, normal := SplitBy(newLinks, rules.isPriority);
      var front := PushFront(queue, Take(priority, 5));
      queue := PushBack(front, Take(normal, 3));
    }

    /** One evaluation of the `while` condition of `run_crawler_optimized` and, when it
        holds, one pass of the loop body. */
    method Iterate(elapsedSecs: nat, failures: nat) returns (stop: Option<Stop>, failuresAfter: nat)
      requires PoolReady()
      modifies this, pool
      ensures PoolReady()
      ensures match Round(web, rules, old(State()), elapsedSecs, failures)
              case Stopped(reason) => stop == Some(reason) && State() == old(State()) && failuresAfter == failures
              case Continued(t, f) => stop == None && State() == t && failuresAfter == f
    {
      stop := StopReason(queue, collected, elapsedSecs, |visited|, failures);
      failuresAfter := failures;
      if stop.None? {
        failuresAfter := LoopPass(failures);
      }
    }

    /** The body of the `while` loop of `run_crawler_optimized`. */
    method LoopPass(failures: nat) returns (failuresAfter: nat)
      requires PoolReady() && queue != []
      modifies this, pool
      ensures PoolReady()
      ensures Continued(State(), failuresAfter) == LoopBody(web, rules, old(State()), failures)
    {
      ghost var s := State();
      var currentLink := queue[0];
      queue := queue[1..];
      assert State() == s.(queue := s.queue[1..]);
      ghost var v := Visit(web, rules, State(), currentLink);
      var result, newLinks := ProcessSinglePage(currentLink);
      assert State() == v.state && result == v.result && newLinks == v.newLinks;
      var saved := result.Some? && result.value != "";
      if saved {
        collected := collected + 1;
        failuresAfter := 0;
      } else {
        failuresAfter := failures + 1;
      }
      ghost var t0 := v.state.(collected := if saved then s.collected + 1 else s.collected);
      assert State() == t0;
      EnqueueLinks(newLinks);
      ghost var t := t0.(queue := Enqueue(t0.queue, newLinks, rules.isPriority));
      assert LoopBody(web, rules, s, failures) == Continued(t, failuresAfter);
      assert State() == t;
    }

    /** `run_crawler_optimized`: queue the seeds, then pass through the loop until its
        condition fails. Whatever the web answers, the loop ends, after at most 21020 passes:
        every pass either saves a person or extends the failure streak. `elapsed(i)` is the
        run time, in whole seconds, when the condition is evaluated for the `i`-th time. */
    method Run(elapsed: nat -> nat) returns (stop: Stop, passes: nat)
      requires Valid() && queue == [] && collected == 0 && |visited| <= MAX_PAGES_TO_VISIT
      modifies this, pool
      ensures Valid()
      ensures stop == QueueEmpty ==> queue == []
      ensures stop == TargetReached ==> collected == TARGET_COUNT
      ensures stop == SafetyLimit ==> !SafetyLimitsOk(elapsed(passes), |visited|)
      ensures collected <= TARGET_COUNT && |visited| <= MAX_PAGES_TO_VISIT
      ensures passes <= 21020
    {
      QueueSeeds();
      var failures: nat := 0;
      passes := 0;
      while true
        invariant Valid() && collected <= TARGET_COUNT && |visited| <= MAX_PAGES_TO_VISIT
        invariant failures <= MAX_CONSECUTIVE_FAILURES
        invariant passes <= collected * 21 + failures
        decreases TARGET_COUNT - collected, MAX_CONSECUTIVE_FAILURES - failures
      {
        ghost var s := State();
        ghost var pass := Round(web, rules, s, elapsed(passes), failures);
        RoundSpec(web, rules, s, elapsed(passes), failures);
        var reason, failuresAfter := Iterate(elapsed(passes), failures);
        if reason.Some? {
          assert pass == Stopped(reason.value) && State() == s;
          return reason.value, passes;
        }
        assert pass == Continued(State(), failuresAfter);
        failures := failuresAfter;
        passes := passes + 1;
      }
    }

    /** The first loop of `run_crawler_optimized`: `links_to_visit.extend(seed_pages)`. */
    method QueueSeeds()
      requires Valid() && queue == []
      modifies this`queue
      ensures Valid() && queue == SEED_PAGES
    {
      SeedsDistinct();
      var i := 0;
      while i < |SEED_PAGES|
        invariant i <= |SEED_PAGES| && queue == SEED_PAGES[..i]
        invariant Valid()
      {
        assert SEED_PAGES[..i + 1] == SEED_PAGES[..i] + [SEED_PAGES[i]];
        assert SEED_PAGES[i] !in SEED_PAGES[..i];
        NoDupSnoc(queue, SEED_PAGES[i]);
        queue := queue + [SEED_PAGES[i]];
        i := i + 1;
      }
    }
  }

  /** The ten seed pages are distinct. */
  lemma SeedsDistinct()
    ensures NoDup(SEED_PAGES)
  {
  }
}
