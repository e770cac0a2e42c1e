/** bypass_wikipedia_crawler.py: a collector that does not follow links. It walks a
    shuffled copy of a fixed list of 63 famous people's pages, fetching each through a pool
    of five sessions with up to three attempts, tests it with a simple classifier and saves
    the people, until the target (50 by default) is reached or the list runs out. */
module BypassCrawler {
  import opened Seqs
  import opened Strings
  import opened Page
  import opened Sessions
  import opened Fetch
  import opened Store

  const FAMOUS_PEOPLE: seq<string> := [
    "wiki/Pelé", "wiki/Caetano_Veloso", "wiki/Getúlio_Vargas",
    "wiki/Machado_de_Assis", "wiki/Tom_Jobim", "wiki/Chico_Buarque",
    "wiki/Gilberto_Gil", "wiki/Roberto_Carlos_(cantor)", "wiki/Ayrton_Senna",
    "wiki/Xuxa", "wiki/Gisele_Bündchen", "wiki/Ronaldinho_Gaúcho",
    "wiki/Fernando_Henrique_Cardoso", "wiki/Luiz_Inácio_Lula_da_Silva",
    "wiki/Dilma_Rousseff", "wiki/Tarcísio_Meira", "wiki/Regina_Duarte",
    "wiki/Fernanda_Montenegro", "wiki/Lima_Barreto", "wiki/Clarice_Lispector",
    "wiki/Oscar_Niemeyer", "wiki/Carmen_Miranda", "wiki/Elis_Regina",
    "wiki/Milton_Nascimento", "wiki/Maria_Bethânia", "wiki/Daniela_Mercury",
    "wiki/Ivete_Sangalo", "wiki/Sandy_Leah", "wiki/Junior_Lima",
    "wiki/Carla_Perez", "wiki/Gugu_Liberato", "wiki/Silvio_Santos",
    "wiki/Fausto_Silva", "wiki/Luciano_Huck", "wiki/Ana_Maria_Braga",
    "wiki/Hebe_Camargo", "wiki/Jô_Soares", "wiki/Pedro_Bial",
    "wiki/William_Bonner", "wiki/Fátima_Bernardes", "wiki/Galvão_Bueno",
    "wiki/Ronaldo_Nazário", "wiki/Rivaldo", "wiki/Kaká", "wiki/Romário",
    "wiki/Bebeto", "wiki/Zico", "wiki/Garrincha", "wiki/Tostão",
    "wiki/Carlos_Alberto_Torres", "wiki/Sócrates_(futebolista)",
    "wiki/Nelson_Mandela", "wiki/Albert_Einstein", "wiki/Leonardo_da_Vinci",
    "wiki/Pablo_Picasso", "wiki/Vincent_van_Gogh", "wiki/Mozart",
    "wiki/Beethoven", "wiki/William_Shakespeare", "wiki/Charles_Darwin",
    "wiki/Isaac_Newton", "wiki/Marie_Curie", "wiki/Nikola_Tesla"]

  const POOL_SIZE: nat := 5
  const MAX_RETRIES: nat := 3
  const MAX_TITLE: nat := 80

  // ---- is_person_simple ----

  const PERSON_INDICATORS: seq<string> := [
    "nascimento", "nasceu", "morte", "morreu",
    "cônjuge", "esposa", "marido", "filhos",
    "ocupação", "profissão", "atividade"]

  const BIO_PATTERNS: seq<string> := [
    @"é um (ator|cantor|político|escritor|jogador|artista)",
    @"é uma (atriz|cantora|política|escritora|jogadora|artista)",
    @"foi um (ator|cantor|político|escritor|jogador|artista)",
    @"foi uma (atriz|cantora|política|escritora|jogadora|artista)"]

  /** Number of person indicators in the lower-cased infobox. */
  function Indicators(box: string): nat
  {
    CountContained(Lower(box), PERSON_INDICATORS)
  }

  /** The first `<p>` of the page, lower-cased and cut to 300 characters, matches a
      biography pattern. */
  predicate ParagraphConfirms(d: Document, search: Search)
  {
    d.firstPara.Some? && AnySearch(search, BIO_PATTERNS, Take(Lower(d.firstPara.value), 300))
  }

  /** `is_person_simple`: no title gives `(False, "")`; a life span in the title gives True;
      then no infobox gives False; two or more infobox indicators give True; exactly one
      defers to the first paragraph; none gives False. There are no exclusion terms and no
      negating fields. */
  function IsPersonSimple(d: Document, search: Search): (v: Verdict)
    ensures d.title.None? ==> v == Verdict(false, "")
    ensures d.title.Some? ==> v.title == d.title.value
    ensures v.isPerson <==>
              d.title.Some?
              && (TitleYearRange(d.title.value)
                  || (d.infobox.Some?
                      && (Indicators(d.infobox.value) >= 2
                          || (Indicators(d.infobox.value) == 1 && ParagraphConfirms(d, search)))))
  {
    match d.title
    case None => Verdict(false, "")
    case Some(title) =>
      if TitleYearRange(title) then Verdict(true, title)
      else
        match d.infobox
        case None => Verdict(false, title)
        case Some(box) =>
          var found := CountContained(Lower(box), PERSON_INDICATORS);
          if found >= 2 then Verdict(true, title)
          else if found == 1 && d.firstPara.Some? then
            Verdict(AnySearch(search, BIO_PATTERNS, Take(Lower(d.firstPara.value), 300)), title)
          else Verdict(false, title)
  }

  /** An infobox without indicators rejects the page, whatever its first paragraph says,
      unless the title carries a life span. */
  lemma NoIndicatorRejects(d: Document, search: Search)
    requires d.title.Some? && !TitleYearRange(d.title.value)
    requires d.infobox.Some? && !ContainsAny(Lower(d.infobox.value), PERSON_INDICATORS)
    ensures !IsPersonSimple(d, search).isPerson
  {
    assert Indicators(d.infobox.value) == 0;
  }

  // ---- collect_people ----

  /** An entry of `person_pages`. */
  datatype Person = Person(url: string, title: string)

  /** The fields of `BypassWikipediaCrawler` that the collection changes, the requests sent so
      far to each URL and the pool's session index. */
  datatype CrawlState = CrawlState(
    visited: set<string>,
    collected: nat,
    people: seq<Person>,
    files: Dir,
    sent: map<string, nat>,
    session: nat)

  /** Between iterations: the pool index is in range, and every collected person is listed
      once, under a visited URL, and has its file. */
  predicate Inv(s: CrawlState)
  {
    s.session < POOL_SIZE && |s.people| == s.collected
    && (forall i | 0 <= i < |s.people| :: s.people[i].url in s.visited && FileName(s.people[i].title, MAX_TITLE) in s.files)
    && (forall i, j | 0 <= i < j < |s.people| :: s.people[i].url != s.people[j].url)
  }

  function Requests(s: CrawlState, url: string): nat
  {
    if url in s.sent then s.sent[url] else 0
  }

  /** `make_request(url)` with this crawler's policy, against what the web still answers. */
  function FetchOutcome(web: Web, s: CrawlState, url: string): Fetched
  {
    Retry(BYPASS_POLICY, MAX_RETRIES, Remaining(web, url, Requests(s, url)), 0)
  }

  /** The requests of a fetch were sent, through as many sessions of the pool. */
  function AfterFetch(s: CrawlState, url: string, f: Fetched): (t: CrawlState)
    requires s.session < POOL_SIZE
    ensures t.session < POOL_SIZE
  {
    s.(sent := s.sent[url := Requests(s, url) + f.sent], session := After(s.session, POOL_SIZE, f.sent))
  }

  /** A fetched page is visited; a person page is saved under its title cut to 80
      characters, replacing any file of that name, and is counted and listed. */
  function Collect(s: CrawlState, url: string, doc: Document, v: Verdict): CrawlState
  {
    var s1 := s.(visited := s.visited + {url});
    if v.isPerson then
      var saved := SaveOverwrite(s1.files, FileName(v.title, MAX_TITLE), doc);
      s1.(files := saved.dir, collected := s1.collected + 1, people := s1.people + [Person(url, v.title)])
    else s1
  }

  /** One iteration of the `for` loop of `collect_people`, for the path `path`, once the
      target check has passed: skip a visited URL; otherwise fetch it, and on success collect
      it. */
  function TryStep(web: Web, classify: Document -> Verdict, s: CrawlState, path: string): CrawlState
    requires s.session < POOL_SIZE
  {
    var url := UrlJoin(path);
    if url in s.visited then s
    else
      var f := FetchOutcome(web, s, url);
      var s1 := AfterFetch(s, url, f);
      match f.doc
      case None => s1
      case Some(doc) => Collect(s1, url, doc, classify(doc))
  }

  /** The `for` loop of `collect_people` over the paths `order`: stop once `target` people
      are collected, or when the paths run out. */
  function Collected(web: Web, classify: Document -> Verdict, target: int, s: CrawlState, order: seq<string>): CrawlState
    requires s.session < POOL_SIZE
    decreases |order|
  {
    if order == [] || s.collected >= target then s
    else
      var s1 := TryStep(web, classify, s, order[0]);
      assert s1.session < POOL_SIZE;
      Collected(web, classify, target, s1, order[1..])
  }

  /** Collecting a newly fetched page keeps the invariant, visits exactly that page, and
      counts and lists it exactly when it is a person. */
  lemma CollectSpec(s: CrawlState, url: string, doc: Document, v: Verdict)
    requires Inv(s) && url !in s.visited
    ensures var t := Collect(s, url, doc, v);
            Inv(t) && t.visited == s.visited + {url}
            && t.collected == (if v.isPerson then s.collected + 1 else s.collected)
            && t.people == (if v.isPerson then s.people + [Person(url, v.title)] else s.people)
  {
    if v.isPerson {
      var t := Collect(s, url, doc, v);
      SaveSpec(s.files, FileName(v.title, MAX_TITLE), doc);
      forall i | 0 <= i < |t.people| ensures t.people[i].url in t.visited && FileName(t.people[i].title, MAX_TITLE) in t.files {
        if i < |s.people| {
          assert t.people[i] == s.people[i];
        }
      }
      forall i, j | 0 <= i < j < |t.people| ensures t.people[i].url != t.people[j].url {
        assert t.people[i] == s.people[i];
        if j == |s.people| {
          assert t.people[i].url in s.visited;
        }
      }
    }
  }

  /** One iteration keeps the invariant, counts at most one person, and visits at most the
      URL of its path, and that only when the fetch succeeded; a person is listed under it. */
  lemma TryStepSpec(web: Web, classify: Document -> Verdict, s: CrawlState, path: string)
    requires Inv(s)
    ensures var t := TryStep(web, classify, s, path);
            var url := UrlJoin(path);
            Inv(t) && s.visited <= t.visited <= s.visited + {url}
            && (t.collected == s.collected || t.collected == s.collected + 1)
            && (t.collected == s.collected ==> t.people == s.people)
            && (t.collected == s.collected + 1 ==> t.people == s.people + [Person(url, t.people[s.collected].title)])
            && (t.collected == s.collected + 1 ==> url !in s.visited)
            && (url !in s.visited ==> (url in t.visited <==> FetchOutcome(web, s, url).doc.Some?))
  {
    var url := UrlJoin(path);
    if url !in s.visited {
      var f := FetchOutcome(web, s, url);
      var s1 := AfterFetch(s, url, f);
      if f.doc.Some? {
        CollectSpec(s1, url, f.doc.value, classify(f.doc.value));
      }
    }
  }

  /** The URLs of the paths `order`. */
  function Urls(order: seq<string>): set<string>
  {
    set p | p in order :: UrlJoin(p)
  }

  /** The loop keeps the invariant and never passes a target it starts at or below; it only
      adds to the visited URLs and to the list of people, each new person under a URL it
      visited. */
  lemma {:induction false} CollectedSpec(web: Web, classify: Document -> Verdict, target: int, s: CrawlState, order: seq<string>)
    requires Inv(s)
    ensures var t := Collected(web, classify, target, s, order);
            Inv(t) && s.collected <= t.collected && (s.collected <= target ==> t.collected <= target)
            && s.visited <= t.visited && s.people <= t.people
            && (forall i | s.collected <= i < t.collected :: t.people[i].url in t.visited - s.visited)
    decreases |order|
  {
    if order != [] && s.collected < target {
      var s1 := TryStep(web, classify, s, order[0]);
      TryStepSpec(web, classify, s, order[0]);
      CollectedSpec(web, classify, target, s1, order[1..]);
      var t := Collected(web, classify, target, s, order);
      assert t == Collected(web, classify, target, s1, order[1..]);
      forall i | s.collected <= i < t.collected ensures t.people[i].url in t.visited - s.visited {
        if i < s1.collected {
          assert t.people[i] == s1.people[i];
        }
      }
    }
  }

  /** The loop visits only URLs of the paths it walks. */
  lemma {:induction false} CollectedVisits(web: Web, classify: Document -> Verdict, target: int, s: CrawlState, order: seq<string>)
    requires Inv(s)
    ensures Collected(web, classify, target, s, order).visited - s.visited <= Urls(order)
    decreases |order|
  {
    if order != [] && s.collected < target {
      var s1 := TryStep(web, classify, s, order[0]);
      TryStepSpec(web, classify, s, order[0]);
      CollectedVisits(web, classify, target, s1, order[1..]);
      UrlsCons(order);
    }
  }

  lemma UrlsCons(order: seq<string>)
    requires order != []
    ensures Urls(order) == {UrlJoin(order[0])} + Urls(order[1..])
  {
    assert order == [order[0]] + order[1..];
  }

  /** A shuffled copy of a list has the same URLs as the list: the loop over
      `random.shuffle(FAMOUS_PEOPLE)` visits only URLs of famous people. */
  lemma ShuffledUrls(order: seq<string>, famous: seq<string>)
    requires multiset(order) == multiset(famous)
    ensures Urls(order) == Urls(famous)
  {
    forall p | p in order ensures p in famous {
      assert p in multiset(order);
    }
    forall p | p in famous ensures p in order {
      assert p in multiset(famous);
    }
  }

  /** `BypassWikipediaCrawler`: the collection state as fields, the pool of five sessions and
      the classifier, fixed at construction. */
  class Crawler {
    const web: Web
    const classify: Document -> Verdict
    const target: int
    const pool: SessionPool
    var visited: set<string>
    var collected: nat
    var people: seq<Person>
    var files: Dir
    var sent: map<string, nat>

    function State(): CrawlState
      reads this, pool
    {
      CrawlState(visited, collected, people, files, sent, pool.current)
    }

    ghost predicate PoolReady()
      reads this, pool
    {
      pool.Valid() && pool.size == POOL_SIZE
    }

    ghost predicate Valid()
      reads this, pool
    {
      PoolReady() && Inv(State())
    }

    /** `BypassWikipediaCrawler(target_count)`, over the output directory `dir` as it is
        found: the directory is created only when missing, and files already in it are kept. */
    constructor (web: Web, search: Search, targetCount: int, dir: Dir)
      ensures Valid() && fresh(pool)
      ensures this.web == web && classify == (d => IsPersonSimple(d, search)) && target == targetCount
      ensures State() == CrawlState({}, 0, [], dir, map[], 0)
    {
      this.web := web;
      classify := d => IsPersonSimple(d, search);
      target := targetCount;
      pool := new SessionPool(POOL_SIZE);
      visited, collected, people := {}, 0, [];
      files, sent := dir, map[];
    }

    /** `make_request(url)`: up to three attempts, each through the next session. */
    method FetchPage(url: string) returns (doc: Option<Document>)
      requires PoolReady()
      modifies this`sent, pool
      ensures PoolReady()
      ensures var f := FetchOutcome(web, old(State()), url);
              doc == f.doc && State() == AfterFetch(old(State()), url, f)
    {
      var k := if url in sent then sent[url] else 0;
      var d, _, n := MakeRequest(BYPASS_POLICY, MAX_RETRIES, Remaining(web, url, k), pool);
      sent := sent[url := k + n];
      doc := d;
    }

    /** `save_page(content, title)`: write the page under its sanitised title cut to 80
        characters, replacing any file of that name. */
    method SavePage(doc: Document, title: string) returns (ok: bool)
      modifies this`files
      ensures Saved(ok, files) == SaveOverwrite(old(files), FileName(title, MAX_TITLE), doc)
    {
      files := files[FileName(title, MAX_TITLE) := doc];
      ok := true;
    }

    /** Mark a fetched page visited, classify it, and save and list a person. */
    method RecordPage(url: string, doc: Document)
      modifies this`visited, this`collected, this`people, this`files
      ensures State() == Collect(old(State()), url, doc, classify(doc))
    {
      visited := visited + {url};
      var verdict := classify(doc);
      if verdict.isPerson {
        var ok := SavePage(doc, verdict.title);
        if ok {
          collected := collected + 1;
          people := people + [Person(url, verdict.title)];
        }
      }
    }

    /** The body of the `for` loop of `collect_people`, after the target check. */
    method TryPath(path: string)
      requires PoolReady()
      modifies this, pool
      ensures PoolReady()
      ensures State() == TryStep(web, classify, old(State()), path)
    {
      var url := UrlJoin(path);
      if url in visited {
        return;
      }
      var doc := FetchPage(url);
      if doc.None? {
        return;
      }
      RecordPage(url, doc.value);
    }

    /** `collect_people()` on `order`, the shuffled `FAMOUS_PEOPLE` (see `ShuffledUrls`). */
    method CollectPeople(order: seq<string>)
      requires Valid()
      modifies this, pool
      ensures Valid()
      ensures old(collected) <= target ==> collected <= target
      ensures old(collected) >= target ==> State() == old(State())
      ensures State() == Collected(web, classify, target, old(State()), order)
      ensures visited - old(visited) <= Urls(order)
    {
      var i := 0;
      while i < |order|
        invariant i <= |order| && Valid()
        invariant Collected(web, classify, target, old(State()), order)
               == Collected(web, classify, target, State(), order[i..])
      {
        if collected >= target {
          break;
        }
        assert order[i..][1..] == order[i + 1..];
        TryStepSpec(web, classify, State(), order[i]);
        TryPath(order[i]);
        i := i + 1;
      }
      CollectedSpec(web, classify, target, old(State()), order);
      CollectedVisits(web, classify, target, old(State()), order);
    }
  }
}
