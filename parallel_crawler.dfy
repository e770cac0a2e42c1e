/** parallel_wiki_crawler.py: worker threads share a FIFO queue of paths seeded with
    category and list pages, a visited set and a counter. Each worker takes a path, marks it
    visited before fetching it with one GET, tests the page with a very small classifier,
    saves people without overwriting, and, while the target of 1000 is not reached, queues up
    to ten links of the page. The model is one worker running alone: its step, and its loop
    while paths wait and the target is not reached. */
module ParallelCrawler {
  import opened Seqs
  import opened Strings
  import opened Page
  import opened Store
  import opened Links

  const BIOGRAPHY_SOURCES: seq<string> := [
    "wiki/Categoria:Nascidos_em_1990", "wiki/Categoria:Nascidos_em_1985",
    "wiki/Categoria:Nascidos_em_1980", "wiki/Categoria:Nascidos_em_1975",
    "wiki/Categoria:Nascidos_em_1970", "wiki/Categoria:Nascidos_em_1965",
    "wiki/Categoria:Atores_do_Brasil", "wiki/Categoria:Cantores_do_Brasil",
    "wiki/Categoria:Políticos_do_Brasil", "wiki/Categoria:Escritores_do_Brasil",
    "wiki/Categoria:Jogadores_de_futebol_do_Brasil",
    "wiki/Lista_de_presidentes_do_Brasil",
    "wiki/Lista_de_governadores_de_São_Paulo",
    "wiki/Lista_de_prefeitos_de_São_Paulo",
    "wiki/Categoria:Atores_dos_Estados_Unidos",
    "wiki/Categoria:Cantores_dos_Estados_Unidos"]

  const TARGET_COUNT: nat := 1000
  const MAX_TITLE: nat := 100

  // ---- is_person_ultra_fast ----

  const TITLE_EXCLUSIONS: seq<string> := ["lista de", "categoria:", "guerra", "batalha", "cidade"]

  const PERSON_INDICATORS: seq<string> := ["nascimento:", "morte:", "cônjuge:", "ocupação:", "profissão:"]

  const BIO_PATTERNS: seq<string> := [@"\bé um \w+", @"\bé uma \w+", @"\bfoi um \w+", @"\bfoi uma \w+"]

  /** Number of indicators among the first 500 characters of the lower-cased infobox. */
  function Indicators(box: string): nat
  {
    CountContained(Take(Lower(box), 500), PERSON_INDICATORS)
  }

  /** The first `<p>` of the article body, cut to 150 characters and lower-cased, matches a
      biography pattern. */
  predicate ParagraphConfirms(d: Document, search: Search)
  {
    ContentFirstPara(d).Some? && AnySearch(search, BIO_PATTERNS, Lower(Take(ContentFirstPara(d).value, 150)))
  }

  /** `is_person_ultra_fast`: no title gives `(False, "")`; an exclusion term in the
      lower-cased title gives False; then a life span in the title gives True; no infobox
      gives False; two or more indicators in the infobox's first 500 characters give True;
      exactly one defers to the first paragraph of the body; none gives False. */
  function IsPersonUltraFast(d: Document, search: Search): (v: Verdict)
    ensures d.title.None? ==> v == Verdict(false, "")
    ensures d.title.Some? ==> v.title == d.title.value
    ensures v.isPerson <==>
              d.title.Some? && !ContainsAny(Lower(d.title.value), TITLE_EXCLUSIONS)
              && (TitleYearRange(d.title.value)
                  || (d.infobox.Some?
                      && (Indicators(d.infobox.value) >= 2
                          || (Indicators(d.infobox.value) == 1 && ParagraphConfirms(d, search)))))
  {
    match d.title
    case None => Verdict(false, "")
    case Some(title) =>
      if ContainsAny(Lower(title), TITLE_EXCLUSIONS) then Verdict(false, title)
      else if TitleYearRange(title) then Verdict(true, title)
      else
        match d.infobox
        case None => Verdict(false, title)
        case Some(box) =>
          var count := CountContained(Take(Lower(box), 500), PERSON_INDICATORS);
          if count >= 2 then Verdict(true, title)
          else if count == 1 then
            match ContentFirstPara(d)
            case None => Verdict(false, title)
            case Some(p) => Verdict(AnySearch(search, BIO_PATTERNS, Lower(Take(p, 150))), title)
          else Verdict(false, title)
  }

  /** Only the first 500 characters of the infobox count: cutting it there changes no
      verdict. */
  lemma InfoboxHeadDecides(d: Document, search: Search)
    requires d.infobox.Some?
    ensures IsPersonUltraFast(d.(infobox := Some(Take(d.infobox.value, 500))), search) == IsPersonUltraFast(d, search)
  {
    var box := d.infobox.value;
    LowerTake(box, 500);
    assert Take(Lower(Take(box, 500)), 500) == Take(Lower(box), 500);
  }

  // ---- should_visit_url and the link extractors ----

  const URL_EXCLUSIONS: seq<string> := [":", "Lista_de_", "Categoria:", "Anexo:", "Portal:"]

  /** `should_visit_url`: a `/wiki/` href with none of the exclusion markers. Three of the
      markers contain a colon, so only the colon and "Lista_de_" decide; the name-pattern
      test that follows returns True on both branches. */
  function ShouldVisit(href: string): (r: bool)
    ensures r <==> StartsWith(href, "/wiki/") && ':' !in href && !Contains(href, "Lista_de_")
  {
    UrlExclusionsIff(href);
    if href == "" || !StartsWith(href, "/wiki/") then false
    else !ContainsAny(href, URL_EXCLUSIONS)
  }

  /** The exclusion markers reduce to the colon and "Lista_de_". */
  lemma UrlExclusionsIff(href: string)
    ensures ContainsAny(href, URL_EXCLUSIONS) <==> ':' in href || Contains(href, "Lista_de_")
  {
    ContainsAnyIff(href, URL_EXCLUSIONS);
    ColonContained(href);
    if ':' !in href {
      ArticleHrefAvoidsColon(href, "Categoria:");
      ArticleHrefAvoidsColon(href, "Anexo:");
      ArticleHrefAvoidsColon(href, "Portal:");
    }
  }

  /** A string contains ":" exactly when it has a colon. */
  lemma ColonContained(s: string)
    ensures Contains(s, ":") <==> ':' in s
  {
    if ':' in s {
      var i :| 0 <= i < |s| && s[i] == ':';
      assert OccursAt(s, ":", i);
    } else if Contains(s, ":") {
      ContainedChars(s, ":");
    }
  }

  /** A string without a colon contains no marker that has one. */
  lemma ArticleHrefAvoidsColon(s: string, marker: string)
    requires ':' !in s && ':' in marker
    ensures !Contains(s, marker)
  {
    if Contains(s, marker) {
      ContainedChars(s, marker);
    }
  }

  /** The member-list loop of `extract_category_links`: the accepted article anchors of
      `div#mw-pages`. */
  function MemberLinks(d: Document): seq<string>
  {
    match d.members
    case None => []
    case Some(members) => Kept(ArticleLinks(members), ShouldVisit, Id)
  }

  /** `extract_category_links`: the member links; when there are none, the accepted ones
      among the first 30 article anchors of the body. Links stay relative. */
  function CategoryLinks(d: Document): seq<string>
  {
    var links := MemberLinks(d);
    if links != [] then links
    else
      match d.content
      case None => []
      case Some(c) => Kept(Take(ArticleLinks(c.hrefs), 30), ShouldVisit, Id)
  }

  /** Every category link is an accepted article anchor; the member list wins whenever it
      gives a link, and the fallback gives at most 30 anchors of the body. */
  lemma CategoryLinksSpec(d: Document)
    ensures var r := CategoryLinks(d);
            (forall l | l in r :: IsArticleHref(l) && ShouldVisit(l))
            && (MemberLinks(d) != [] ==> r == MemberLinks(d) && forall l | l in r :: l in d.members.value)
            && (MemberLinks(d) == [] ==> |r| <= 30 && forall l | l in r :: d.content.Some? && l in d.content.value.hrefs)
  {
    var r := CategoryLinks(d);
    if d.members.Some? {
      var anchors := ArticleLinks(d.members.value);
      forall l | l in MemberLinks(d) ensures IsArticleHref(l) && ShouldVisit(l) && l in d.members.value {
        KeptFrom(anchors, ShouldVisit, Id, l);
      }
    }
    if MemberLinks(d) == [] && d.content.Some? {
      var anchors := Take(ArticleLinks(d.content.value.hrefs), 30);
      forall l | l in r ensures IsArticleHref(l) && ShouldVisit(l) && l in d.content.value.hrefs {
        KeptFrom(anchors, ShouldVisit, Id, l);
        assert l in ArticleLinks(d.content.value.hrefs);
      }
    }
  }

  /** The loops of `extract_category_links`. */
  method ExtractCategoryLinks(d: Document) returns (links: seq<string>)
    ensures links == CategoryLinks(d)
  {
    links := [];
    if d.members.Some? {
      links := AppendKept(links, ArticleLinks(d.members.value), ShouldVisit, Id);
    }
    assert links == MemberLinks(d);
    if links == [] && d.content.Some? {
      links := AppendKept(links, Take(ArticleLinks(d.content.value.hrefs), 30), ShouldVisit, Id);
    }
  }

  const BIO_WORDS: seq<string> := ["nasceu", "político", "ator", "escritor", "cantor"]

  /** `extract_bio_links`: the accepted article anchors of those of the first five `<p>` of
      the body whose lower-cased text mentions a biography word. */
  function BioLinks(d: Document): seq<string>
  {
    match d.content
    case None => []
    case Some(c) => TriggeredLinks(Take(c.paragraphs, 5), BIO_WORDS, ShouldVisit, Id)
  }

  /** Each bio link is an accepted article anchor of one of the first five paragraphs that
      mention a biography word. */
  lemma BioLinksSpec(d: Document)
    ensures forall l | l in BioLinks(d) ::
              d.content.Some? && exists b | b in Take(d.content.value.paragraphs, 5) ::
                l in b.hrefs && ContainsAny(Lower(b.text), BIO_WORDS) && IsArticleHref(l) && ShouldVisit(l)
  {
    if d.content.Some? {
      var blocks := Take(d.content.value.paragraphs, 5);
      TriggeredLinksFrom(blocks, BIO_WORDS, ShouldVisit, Id);
      forall l | l in BioLinks(d)
        ensures exists b | b in blocks :: l in b.hrefs && ContainsAny(Lower(b.text), BIO_WORDS) && IsArticleHref(l) && ShouldVisit(l)
      {
        var b, h :| b in blocks && h in b.hrefs && ContainsAny(Lower(b.text), BIO_WORDS)
                    && IsArticleHref(h) && ShouldVisit(h) && l == Id(h);
      }
    }
  }

  /** The loops of `extract_bio_links`. */
  method ExtractBioLinks(d: Document) returns (links: seq<string>)
    ensures links == BioLinks(d)
  {
    links := [];
    if d.content.Some? {
      links := CollectTriggered(links, Take(d.content.value.paragraphs, 5), BIO_WORDS, ShouldVisit, Id);
    }
  }

  /** The links a worker gathers from a page fetched for `path`: the category extractor
      when the path names a category, the bio extractor otherwise. */
  function NewLinks(d: Document, path: string): seq<string>
  {
    if Contains(path, "Categoria:") then CategoryLinks(d) else BioLinks(d)
  }

  /** Every gathered link is a relative article path the URL filter accepts. */
  lemma NewLinksAccepted(d: Document, path: string)
    ensures forall l | l in NewLinks(d, path) :: IsArticleHref(l) && ShouldVisit(l)
  {
    CategoryLinksSpec(d);
    BioLinksSpec(d);
  }

  /** `is_person_ultra_fast` and the two extractors as the heuristics a worker applies. */
  function ParallelRules(search: Search): Heuristics
  {
    Heuristics(d => IsPersonUltraFast(d, search), (d, p) => NewLinks(d, p))
  }

  // ---- the worker ----

  /** The shared fields a worker changes (`person_pages` is a set of URLs here), and the
      requests sent so far to each URL. */
  datatype CrawlState = CrawlState(
    visited: set<string>,
    queue: seq<string>,
    collected: nat,
    people: set<string>,
    files: Dir,
    sent: map<string, nat>)

  /** Between steps: every person is a visited URL and is counted once, each count stands
      for a file written, and exactly the visited URLs were requested, once each. */
  predicate Inv(s: CrawlState)
  {
    s.people <= s.visited && |s.people| == s.collected && s.collected <= |s.files|
    && s.sent.Keys == s.visited && (forall u | u in s.sent :: s.sent[u] == 1)
  }

  function Requests(s: CrawlState, url: string): nat
  {
    if url in s.sent then s.sent[url] else 0
  }

  /** `session.get(url)` followed by `raise_for_status()`: one request, a page only for a
      response that is not a client or server error. */
  function Get(web: Web, s: CrawlState, url: string): Option<Document>
  {
    match Respond(web, url, Requests(s, url))
    case TransportError => None
    case Response(status, doc) => if RaisesForStatus(status) then None else Some(doc)
  }

  /** A URL not yet visited was never requested: the worker sees the web's first answer. */
  lemma FirstRequest(web: Web, s: CrawlState, url: string)
    requires Inv(s) && url !in s.visited
    ensures Requests(s, url) == 0 && Get(web, s, url) == Get(web, s.(sent := map[]), url)
  {
  }

  /** A request gives a page only for a URL the web knows. */
  lemma GetKnown(web: Web, s: CrawlState, url: string)
    ensures Get(web, s, url).Some? ==> url in web
  {
  }

  /** The body of the `while` loop of `worker_thread` for a waiting path: take it, skip it
      when its URL was visited, otherwise mark the URL visited and process what the request
      gave. */
  function Step(web: Web, rules: Heuristics, target: nat, s: CrawlState): CrawlState
    requires s.queue != []
  {
    var path := s.queue[0];
    var s0 := s.(queue := s.queue[1..]);
    var url := UrlJoin(path);
    if url in s0.visited then s0
    else Process(rules, target, s0, path, Get(web, s0, url))
  }

  /** Mark the path's URL visited and record its request, then expand the page, if any. */
  function Process(rules: Heuristics, target: nat, s: CrawlState, path: string, doc: Option<Document>): CrawlState
  {
    var s1 := Visit(s, UrlJoin(path));
    match doc
    case None => s1
    case Some(d) => Expand(rules, target, s1, path, d)
  }

  /** Mark the URL visited and count its request. */
  function Visit(s: CrawlState, url: string): CrawlState
  {
    s.(visited := s.visited + {url}, sent := s.sent[url := Requests(s, url) + 1])
  }

  /** A person page is saved under its title cut to 100 characters unless that file exists;
      only a written file counts the person. */
  function Collect(s: CrawlState, url: string, doc: Document, v: Verdict): CrawlState
  {
    if v.isPerson then
      var saved := SaveIfNew(s.files, FileName(v.title, MAX_TITLE), doc);
      if saved.ok then s.(files := saved.dir, collected := s.collected + 1, people := s.people + {url})
      else s
    else s
  }

  /** Collect the page and, while the target is not reached, queue the first ten of its
      links, visited or not. */
  function Expand(rules: Heuristics, target: nat, s: CrawlState, path: string, doc: Document): CrawlState
  {
    var s1 := Collect(s, UrlJoin(path), doc, rules.classify(doc));
    if s1.collected < target then s1.(queue := s1.queue + Take(rules.extract(doc, path), 10))
    else s1
  }

  /** A new person is a new element of the people set. */
  lemma OneMorePerson(people: set<string>, url: string)
    requires url !in people
    ensures |people + {url}| == |people| + 1
  {
  }

  /** A new file name adds one file. */
  lemma OneMoreFile(dir: Dir, name: string, doc: Document)
    requires name !in dir
    ensures |dir[name := doc]| == |dir| + 1
  {
    assert dir[name := doc].Keys == dir.Keys + {name};
  }

  /** Collecting a page under a visited URL that is no person yet keeps the invariant; it
      counts the person exactly when the page is one and its file name is free. */
  lemma CollectSpec(s: CrawlState, url: string, doc: Document, v: Verdict)
    requires Inv(s) && url in s.visited && url !in s.people
    ensures var t := Collect(s, url, doc, v);
            Inv(t) && t.visited == s.visited && t.queue == s.queue && t.sent == s.sent
            && (t.collected == s.collected + 1 <==> v.isPerson && FileName(v.title, MAX_TITLE) !in s.files)
            && t.people == (if t.collected == s.collected + 1 then s.people + {url} else s.people)
            && (t.collected == s.collected ==> t.files == s.files)
  {
    var name := FileName(v.title, MAX_TITLE);
    if v.isPerson && name !in s.files {
      OneMorePerson(s.people, url);
      OneMoreFile(s.files, name, doc);
    }
  }

  /** Visiting an unvisited URL keeps the invariant: it is requested once, and no person
      is listed under it yet. */
  lemma VisitSpec(s: CrawlState, url: string)
    requires Inv(s) && url !in s.visited
    ensures var t := Visit(s, url);
            Inv(t) && t.visited == s.visited + {url} && t.sent == s.sent[url := 1] && url !in t.people
            && t.queue == s.queue && t.collected == s.collected && t.people == s.people && t.files == s.files
  {
    var t := Visit(s, url);
    assert t.sent.Keys == s.sent.Keys + {url};
  }

  /** Expanding a page under a visited URL no person is listed under keeps the invariant,
      visits nothing more, counts at most one person and never passes the target. */
  lemma ExpandSpec(rules: Heuristics, target: nat, s: CrawlState, path: string, doc: Document)
    requires Inv(s) && UrlJoin(path) in s.visited && UrlJoin(path) !in s.people && s.collected < target
    ensures var t := Expand(rules, target, s, path, doc);
            Inv(t) && t.visited == s.visited && t.sent == s.sent && t.collected <= target
            && (t.collected == s.collected || t.collected == s.collected + 1)
  {
    CollectSpec(s, UrlJoin(path), doc, rules.classify(doc));
  }

  /** Processing an unvisited URL keeps the invariant, visits it and records one request,
      whatever the request gave; it counts at most one person and never passes the target. */
  lemma ProcessSpec(rules: Heuristics, target: nat, s: CrawlState, path: string, doc: Option<Document>)
    requires Inv(s) && UrlJoin(path) !in s.visited && s.collected < target
    ensures var t := Process(rules, target, s, path, doc);
            Inv(t) && t.visited == s.visited + {UrlJoin(path)} && t.sent == s.sent[UrlJoin(path) := 1]
            && t.collected <= target && (t.collected == s.collected || t.collected == s.collected + 1)
  {
    VisitSpec(s, UrlJoin(path));
    if doc.Some? {
      ExpandSpec(rules, target, Visit(s, UrlJoin(path)), path, doc.value);
    }
  }

  /** What processing does to the queue: the first ten links of the page are appended after
      a successful request that leaves the count below the target; otherwise the queue stays. */
  lemma ProcessQueue(rules: Heuristics, target: nat, s: CrawlState, path: string, doc: Option<Document>)
    ensures var t := Process(rules, target, s, path, doc);
            t.queue == if doc.Some? && t.collected < target then s.queue + Take(rules.extract(doc.value, path), 10)
                       else s.queue
  {
  }

  /** Visiting a URL the web knows leaves fewer known URLs unvisited; visiting one it does
      not know leaves as many. */
  lemma UnvisitedKnown(known: set<string>, visited: set<string>, url: string)
    requires url !in visited
    ensures url in known ==> |known - (visited + {url})| < |known - visited|
    ensures url !in known ==> known - (visited + {url}) == known - visited
  {
    if url in known {
      var rest := known - (visited + {url});
      assert known - visited == rest + {url};
    }
  }

  /** One step keeps the invariant and never passes the target. A visited URL is dropped
      without a request and nothing else changes; an unvisited one is marked visited and
      requested once, whatever the answer. */
  lemma StepSpec(web: Web, rules: Heuristics, target: nat, s: CrawlState)
    requires Inv(s) && s.queue != [] && s.collected < target
    ensures var t := Step(web, rules, target, s);
            var url := UrlJoin(s.queue[0]);
            Inv(t) && t.collected <= target && (t.collected == s.collected || t.collected == s.collected + 1)
            && (url in s.visited ==> t == s.(queue := s.queue[1..]))
            && (url !in s.visited ==> t.visited == s.visited + {url} && t.sent == s.sent[url := 1])
  {
    var url := UrlJoin(s.queue[0]);
    var s0 := s.(queue := s.queue[1..]);
    if url !in s.visited {
      FirstRequest(web, s0, url);
      ProcessSpec(rules, target, s0, s.queue[0], Get(web, s0, url));
    }
  }

  /** Each step makes progress: it visits a URL the web knows, or leaves the known unvisited
      URLs as they were and shortens the queue. */
  lemma StepProgress(web: Web, rules: Heuristics, target: nat, s: CrawlState)
    requires s.queue != []
    ensures var t := Step(web, rules, target, s);
            |web.Keys - t.visited| < |web.Keys - s.visited|
            || (web.Keys - t.visited == web.Keys - s.visited && |t.queue| < |s.queue|)
  {
    var path := s.queue[0];
    var url := UrlJoin(path);
    var s0 := s.(queue := s.queue[1..]);
    if url !in s.visited {
      var doc := Get(web, s0, url);
      GetKnown(web, s0, url);
      UnvisitedKnown(web.Keys, s.visited, url);
      ProcessQueue(rules, target, s0, path, doc);
    }
  }

  /** `ParallelWikipediaCrawler()` run by one worker: the shared state as fields, the target
      and the heuristics, fixed at construction. */
  class Crawler {
    const web: Web
    const rules: Heuristics
    const target: nat
    var visited: set<string>
    var queue: seq<string>
    var collected: nat
    var people: set<string>
    var files: Dir
    var sent: map<string, nat>

    function State(): CrawlState
      reads this
    {
      CrawlState(visited, queue, collected, people, files, sent)
    }

    ghost predicate Valid()
      reads this
    {
      Inv(State())
    }

    /** `ParallelWikipediaCrawler()`: the target is 1000 and the queue holds the biography
        sources, in order. The output directory `dir` is taken as it is found: it is created
        only when missing, and files already in it are kept. */
    constructor (web: Web, search: Search, dir: Dir)
      ensures Valid()
      ensures this.web == web && rules == ParallelRules(search) && target == TARGET_COUNT
      ensures State() == CrawlState({}, BIOGRAPHY_SOURCES, 0, {}, dir, map[])
    {
      var q := [];
      var i := 0;
      while i < |BIOGRAPHY_SOURCES|
        invariant i <= |BIOGRAPHY_SOURCES| && q == BIOGRAPHY_SOURCES[..i]
      {
        assert BIOGRAPHY_SOURCES[..i + 1] == BIOGRAPHY_SOURCES[..i] + [BIOGRAPHY_SOURCES[i]];
        q := q + [BIOGRAPHY_SOURCES[i]];
        i := i + 1;
      }
      this.web := web;
      rules := ParallelRules(search);
      target := TARGET_COUNT;
      visited, queue, collected, people := {}, q, 0, {};
      files, sent := dir, map[];
    }

    /** `session.get(full_url)` and `raise_for_status()`. */
    method GetPage(url: string) returns (doc: Option<Document>)
      modifies this`sent
      ensures doc == Get(web, old(State()), url) && sent == old(sent)[url := Requests(old(State()), url) + 1]
    {
      var k := if url in sent then sent[url] else 0;
      var outcome := Respond(web, url, k);
      sent := sent[url := k + 1];
      doc := None;
      if outcome.Response? && !RaisesForStatus(outcome.status) {
        doc := Some(outcome.doc);
      }
    }

    /** `save_page_safe(content, title)`: write the page under its sanitised title cut to
        100 characters, unless a file of that name exists, which reports failure. */
    method SavePageSafe(doc: Document, title: string) returns (ok: bool)
      modifies this`files
      ensures Saved(ok, files) == SaveIfNew(old(files), FileName(title, MAX_TITLE), doc)
    {
      var name := FileName(title, MAX_TITLE);
      if name in files {
        return false;
      }
      files := files[name := doc];
      ok := true;
    }

    /** Classify a fetched page, and save and count a person. */
    method RecordPage(url: string, doc: Document)
      modifies this`collected, this`people, this`files
      ensures State() == Collect(old(State()), url, doc, rules.classify(doc))
    {
      var verdict := rules.classify(doc);
      if verdict.isPerson {
        var ok := SavePageSafe(doc, verdict.title);
        if ok {
          collected := collected + 1;
          people := people + {url};
        }
      }
    }

    /** `for link in new_links[:10]: url_queue.put(link)`. */
    method EnqueueLinks(links: seq<string>)
      modifies this`queue
      ensures queue == old(queue) + Take(links, 10)
    {
      var i := 0;
      while i < |links| && i < 10
        invariant i <= |links| && i <= 10 && queue == old(queue) + links[..i]
      {
        assert links[..i + 1] == links[..i] + [links[i]];
        queue := queue + [links[i]];
        i := i + 1;
      }
    }

    /** One pass of the `while` loop of `worker_thread`, for a waiting path. */
    method WorkerStep()
      requires queue != []
      modifies this
      ensures State() == Step(web, rules, target, old(State()))
    {
      var path := queue[0];
      queue := queue[1..];
      var url := UrlJoin(path);
      if url in visited {
        return;
      }
      ghost var s0 := State();
      visited := visited + {url};
      var doc := GetPage(url);
      assert doc == Get(web, s0, url);
      if doc.None? {
        return;
      }
      ghost var s1 := State();
      RecordPage(url, doc.value);
      if collected < target {
        var links := rules.extract(doc.value, path);
        EnqueueLinks(links);
      }
      assert State() == Expand(rules, target, s1, path, doc.value);
    }

    /** `worker_thread` for a worker running alone: step while paths wait and fewer than
        `target` people are collected. Whatever the web answers, the loop ends: each step
        visits a URL the web knows or shortens the queue. */
    method RunWorker()
      requires Valid() && collected <= target
      modifies this
      ensures Valid() && collected <= target
      ensures queue == [] || collected == target
    {
      while queue != [] && collected < target
        invariant Valid() && collected <= target
        decreases |web.Keys - visited|, |queue|
      {
        StepSpec(web, rules, target, State());
        StepProgress(web, rules, target, State());
        WorkerStep();
      }
    }
  }
}
