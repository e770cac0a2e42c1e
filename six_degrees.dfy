/** graus_sep.py: the "six degrees" calculator over the saved person pages. Each page's
    links are matched against the index of normalised person names, the mentions become
    the edges of a graph, a name query is resolved to an indexed person, and a
    breadth-first search looks for a chain of at most six links between two people.

    Reading the saved files is not modelled: the index and, for every saved page, its title
    and the anchors of its body are given. */
module SixDegrees {
  import opened Seqs
  import opened Strings
  import opened Names

  // ---- the index ----

  /** `person_names` (normalised name to file, keys in insertion order) and `file_to_name`
      (file to displayed name). */
  datatype Index = Index(keys: seq<string>, fileOf: map<string, string>, nameOf: map<string, string>)

  /** What loading the pages leaves behind: each name indexed once, a file for every
      name, and a displayed name for every such file. */
  predicate ValidIndex(ix: Index)
  {
    NoDup(ix.keys) && Elems(ix.keys) == ix.fileOf.Keys && forall k | k in ix.fileOf :: ix.fileOf[k] in ix.nameOf
  }

  /** The displayed name of an indexed person; any other node shows as itself. */
  function Display(ix: Index, node: string): string
  {
    if node in ix.fileOf && ix.fileOf[node] in ix.nameOf then ix.nameOf[ix.fileOf[node]] else node
  }

  // ---- extract_person_links ----

  /** An `<a>` of the page body: its `href` and its stripped text. */
  datatype Anchor = Anchor(href: string, text: string)

  /** A saved page: the displayed name `file_to_name` holds for it, and its body's anchors. */
  datatype SavedPage = SavedPage(name: string, anchors: seq<Anchor>)

  /** The href filter `^/wiki/[^:#]+$`. */
  predicate IsPersonHref(h: string)
  {
    StartsWith(h, "/wiki/") && |h| > 6 && ':' !in h && '#' !in h
  }

  /** `s.replace(pat, rep)`: every non-overlapping occurrence, left to right. */
  function Replace(s: string, pat: string, rep: string): string
    requires pat != []
    decreases |s|
  {
    if |s| < |pat| then s
    else if s[..|pat|] == pat then rep + Replace(s[|pat|..], pat, rep)
    else [s[0]] + Replace(s[1..], pat, rep)
  }

  /** `s.replace('_', ' ')`. */
  function Underscores(s: string): (r: string)
    ensures |r| == |s| && '_' !in r
  {
    seq(|s|, i requires 0 <= i < |s| => if s[i] == '_' then ' ' else s[i])
  }

  /** `unquote(href.replace('/wiki/', '')).replace('_', ' ')`. */
  function PageName(href: string): string
  {
    Underscores(Unquote(Replace(href, "/wiki/", "")))
  }

  /** The scan's test: either normalised form contains the name or lies inside it. */
  predicate Related(name: string, text: string, page: string)
  {
    Contains(name, text) || Contains(text, name) || Contains(name, page) || Contains(page, name)
  }

  /** The first indexed name, in index order, that the scan accepts. */
  function FirstRelated(keys: seq<string>, text: string, page: string): (r: Option<string>)
    ensures r.Some? ==> r.value in keys && Related(r.value, text, page)
    decreases |keys|
  {
    if keys == [] then None
    else if Related(keys[0], text, page) then Some(keys[0])
    else FirstRelated(keys[1..], text, page)
  }

  /** An anchor that passes both filters, by its normalised page name and text. */
  datatype Link = Link(page: string, text: string)

  /** The filters of the anchor loop (the href pattern and a text of more than one
      character) and the normalisation of what passes them. */
  function Accepted(a: Anchor): Option<Link>
  {
    if !IsPersonHref(a.href) || |a.text| <= 1 then None
    else Some(Link(Sanitize(PageName(a.href)), Sanitize(a.text)))
  }

  /** The accepted anchors, in anchor order. */
  function Links(anchors: seq<Anchor>): seq<Link>
  {
    FilterMap(anchors, Accepted)
  }

  /** The lookup of an accepted anchor: the page name if indexed, else the text if
      indexed, else the scan; an empty name counts as no person, as Python's truth test
      has it. */
  function Lookup(keys: seq<string>, l: Link): (r: Option<string>)
    ensures r.Some? ==> r.value in keys && r.value != ""
  {
    var found :=
      if l.page in keys then Some(l.page)
      else if l.text in keys then Some(l.text)
      else FirstRelated(keys, l.text, l.page);
    if found.Some? && found.value != "" then found else None
  }

  /** The lookup against the index `keys`. */
  function LookupIn(keys: seq<string>): Link -> Option<string>
  {
    l => Lookup(keys, l)
  }

  /** The persons of the accepted anchors, in order, repeats included. */
  function Mentions(keys: seq<string>, links: seq<Link>): (r: seq<string>)
    ensures forall k | k in r :: k in keys && k != ""
  {
    FilterMapSpec(links, LookupIn(keys));
    FilterMap(links, LookupIn(keys))
  }

  /** `extract_person_links(soup)`: `list(set(person_links))`. */
  function PersonLinks(keys: seq<string>, anchors: seq<Anchor>): seq<string>
  {
    Persons(keys, Links(anchors))
  }

  /** The distinct persons of the accepted anchors. */
  function Persons(keys: seq<string>, links: seq<Link>): seq<string>
  {
    Distinct(Mentions(keys, links))
  }

  /** The scan returns an indexed name it accepts, with no accepted name before it, and
      returns nothing exactly when no name is accepted. */
  lemma {:induction false} FirstRelatedSpec(keys: seq<string>, text: string, page: string)
    ensures var r := FirstRelated(keys, text, page);
            (r.None? <==> forall k | k in keys :: !Related(k, text, page))
            && (r.Some? ==> exists i | 0 <= i < |keys| :: keys[i] == r.value && Related(keys[i], text, page)
                                                        && forall j | 0 <= j < i :: !Related(keys[j], text, page))
    decreases |keys|
  {
    if keys != [] && !Related(keys[0], text, page) {
      FirstRelatedSpec(keys[1..], text, page);
      var r := FirstRelated(keys, text, page);
      if r.Some? {
        var i :| 0 <= i < |keys[1..]| && keys[1..][i] == r.value && Related(keys[1..][i], text, page)
                 && forall j | 0 <= j < i :: !Related(keys[1..][j], text, page);
        assert keys[i + 1] == r.value;
        forall j | 0 <= j < i + 1 ensures !Related(keys[j], text, page) {
          if j > 0 {
            assert keys[j] == keys[1..][j - 1];
          }
        }
      }
      assert forall k | k in keys :: k == keys[0] || k in keys[1..];
    }
  }

  /** The lookup gives only a non-empty indexed person; an indexed page name wins over an
      indexed text, and both win over the scan, which accepts the first related name. */
  lemma LookupSpec(keys: seq<string>, l: Link)
    ensures var r := Lookup(keys, l);
            (r.Some? ==> r.value in keys && r.value != "")
            && (l.page in keys ==> r == (if l.page != "" then Some(l.page) else None))
            && (l.page !in keys && l.text in keys ==> r == (if l.text != "" then Some(l.text) else None))
            && (l.page !in keys && l.text !in keys ==>
                  (r.Some? ==> Related(r.value, l.text, l.page))
                  && ("" !in keys ==> (r.None? <==> forall k | k in keys :: !Related(k, l.text, l.page))))
  {
    FirstRelatedSpec(keys, l.text, l.page);
  }

  /** Exactly the anchors that pass the filters are looked up, each by its normalised page
      name and text. */
  lemma LinksSpec(anchors: seq<Anchor>)
    ensures forall l | l in Links(anchors) :: exists a | a in anchors :: Accepted(a) == Some(l)
    ensures forall a | a in anchors && Accepted(a).Some? :: Accepted(a).value in Links(anchors)
  {
    FilterMapSpec(anchors, Accepted);
  }

  /** `extract_person_links` returns indexed, non-empty names, none twice, and the person
      of every accepted anchor the lookup finds. */
  lemma PersonsSpec(keys: seq<string>, links: seq<Link>)
    ensures var r := Persons(keys, links);
            NoDup(r) && (forall k | k in r :: k in keys && k != "")
            && forall l | l in links && Lookup(keys, l).Some? :: Lookup(keys, l).value in r
  {
    var m := Mentions(keys, links);
    var r := Distinct(m);
    MentionsFound(keys, links);
    forall k | k in r ensures k in m {
      assert k in Elems(r);
    }
    forall l | l in links && Lookup(keys, l).Some? ensures Lookup(keys, l).value in r {
      assert Lookup(keys, l).value in Elems(m);
    }
  }

  /** Every person the lookup finds is mentioned. */
  lemma MentionsFound(keys: seq<string>, links: seq<Link>)
    ensures forall l | l in links && Lookup(keys, l).Some? :: Lookup(keys, l).value in Mentions(keys, links)
  {
    FilterMapSpec(links, LookupIn(keys));
  }

  /** The mentions of two runs of anchors are those of the first, then those of the second. */
  lemma MentionsAppend(keys: seq<string>, a: seq<Link>, b: seq<Link>)
    ensures Mentions(keys, a + b) == Mentions(keys, a) + Mentions(keys, b)
  {
    FilterMapAppend(a, b, LookupIn(keys));
  }

  /** The scan loop of `extract_person_links`, which stops at the first accepted name. */
  method ScanIndex(keys: seq<string>, text: string, page: string) returns (found: Option<string>)
    ensures found == FirstRelated(keys, text, page)
  {
    found := None;
    var i := 0;
    while i < |keys|
      invariant i <= |keys| && found == None
      invariant FirstRelated(keys[i..], text, page) == FirstRelated(keys, text, page)
    {
      assert keys[i..][1..] == keys[i + 1..];
      if Related(keys[i], text, page) {
        found := Some(keys[i]);
        break;
      }
      i := i + 1;
    }
  }

  /** The filters and normalisation of one anchor in the loop of `extract_person_links`. */
  method Accept(a: Anchor) returns (l: Option<Link>)
    ensures l == Accepted(a)
  {
    if IsPersonHref(a.href) && |a.text| > 1 {
      var page := Sanitize(PageName(a.href));
      var text := Sanitize(a.text);
      l := Some(Link(page, text));
    } else {
      l := None;
    }
  }

  /** The lookup of one accepted anchor in the loop of `extract_person_links`. */
  method LookupLink(keys: seq<string>, l: Link) returns (found: Option<string>)
    ensures found == Lookup(keys, l)
  {
    if l.page in keys {
      found := Some(l.page);
    } else if l.text in keys {
      found := Some(l.text);
    } else {
      found := ScanIndex(keys, l.text, l.page);
    }
    if found.Some? && found.value == "" {
      found := None;
    }
  }

  /** Accepting the anchors of two runs accepts those of the first, then those of the second. */
  lemma LinksAppend(a: seq<Anchor>, b: seq<Anchor>)
    ensures Links(a + b) == Links(a) + Links(b)
  {
    FilterMapAppend(a, b, Accepted);
  }

  /** Accepting one more anchor appends what it contributes. */
  lemma LinksSnoc(prefix: seq<Anchor>, x: Anchor)
    ensures Links(prefix + [x]) == Links(prefix) + Listed(Accepted(x))
  {
    FilterMapSnoc(prefix, x, Accepted);
  }

  /** The mentions of at most one accepted anchor. */
  lemma MentionsListed(keys: seq<string>, l: Option<Link>)
    ensures Mentions(keys, Listed(l)) == if l.Some? then Listed(Lookup(keys, l.value)) else []
  {
    FilterMapListed(l, LookupIn(keys));
  }

  /** `extract_person_links`: the loop over the anchors of the body. */
  method ExtractPersonLinks(keys: seq<string>, anchors: seq<Anchor>) returns (links: seq<string>)
    ensures links == PersonLinks(keys, anchors)
  {
    var mentions := [];
    var i := 0;
    while i < |anchors|
      invariant i <= |anchors| && mentions == FilterMap(FilterMap(anchors[..i], Accepted), LookupIn(keys))
    {
      FilterMapThenStep(anchors, i, Accepted, LookupIn(keys));
      var l := Accept(anchors[i]);
      if l.Some? {
        var found := LookupLink(keys, l.value);
        if found.Some? {
          mentions := mentions + [found.value];
        }
      }
      i := i + 1;
    }
    assert anchors[..i] == anchors;
    links := Distinct(mentions);
  }

  // ---- build_connection_graph ----

  /** `person_graph`: each person to the set of persons its page mentions. */
  type Graph = map<string, set<string>>

  predicate Edge(g: Graph, u: string, v: string)
  {
    u in g && v in g[u]
  }

  /** `if m != current: person_graph[current].add(m)`. */
  function Mention(g: Graph, current: string, m: string): Graph
  {
    if m == current then g else g[current := (if current in g then g[current] else {}) + {m}]
  }

  /** The inner loop over the mentioned persons of one page. */
  function MentionAll(g: Graph, current: string, ms: seq<string>): Graph
    decreases |ms|
  {
    if ms == [] then g else MentionAll(Mention(g, current, ms[0]), current, ms[1..])
  }

  /** `build_connection_graph` over the saved pages, in order. */
  function Connect(g: Graph, keys: seq<string>, pages: seq<SavedPage>): Graph
    decreases |pages|
  {
    if pages == [] then g
    else Connect(MentionAll(g, Sanitize(pages[0].name), PersonLinks(keys, pages[0].anchors)), keys, pages[1..])
  }

  /** A well-formed graph: every listed person has a connection, none to itself, and every
      connection is an indexed person. */
  predicate GraphInv(g: Graph, keys: seq<string>)
  {
    forall u | u in g :: g[u] != {} && u !in g[u] && forall v | v in g[u] :: v in keys
  }

  /** The mentions of one page add exactly the edges from its person to each other person
      it mentions. */
  lemma {:induction false} MentionAllSpec(g: Graph, keys: seq<string>, current: string, ms: seq<string>)
    requires GraphInv(g, keys) && forall m | m in ms :: m in keys
    ensures var r := MentionAll(g, current, ms);
            GraphInv(r, keys)
            && (forall u, v :: Edge(r, u, v) <==> Edge(g, u, v) || (u == current && v in ms && v != current))
    decreases |ms|
  {
    if ms != [] {
      var g1 := Mention(g, current, ms[0]);
      assert GraphInv(g1, keys);
      MentionAllSpec(g1, keys, current, ms[1..]);
      assert forall m | m in ms :: m == ms[0] || m in ms[1..];
    }
  }

  /** The graph has exactly the edges from each page's person to each other person the page
      mentions, and keeps its well-formedness. */
  lemma {:induction false} ConnectSpec(g: Graph, keys: seq<string>, pages: seq<SavedPage>)
    requires GraphInv(g, keys)
    ensures var r := Connect(g, keys, pages);
            GraphInv(r, keys)
            && forall u, v :: Edge(r, u, v) <==>
                 Edge(g, u, v) || exists p | p in pages :: u == Sanitize(p.name) && v in PersonLinks(keys, p.anchors) && v != u
    decreases |pages|
  {
    if pages != [] {
      var p := pages[0];
      var ms := PersonLinks(keys, p.anchors);
      PersonsSpec(keys, Links(p.anchors));
      MentionAllSpec(g, keys, Sanitize(p.name), ms);
      var g1 := MentionAll(g, Sanitize(p.name), ms);
      ConnectSpec(g1, keys, pages[1..]);
      assert forall q | q in pages :: q == p || q in pages[1..];
      assert forall q | q in pages[1..] :: q in pages;
    }
  }

  // ---- find_person ----

  /** First tier: the query lies inside the name or the name inside the query. */
  function Overlaps(q: string): string -> bool
  {
    k => Contains(k, q) || Contains(q, k)
  }

  /** `any(qword in pword for pword in person_words)`. */
  predicate WordInside(pws: seq<string>, qw: string)
  {
    pws != [] && (Contains(pws[0], qw) || WordInside(pws[1..], qw))
  }

  /** `all(any(qword in pword for pword in person_words) for qword in query_words)`. */
  predicate AllWordsInside(qws: seq<string>, pws: seq<string>)
  {
    qws == [] || (WordInside(pws, qws[0]) && AllWordsInside(qws[1..], pws))
  }

  /** Second tier: every word of the query lies inside some word of the name. */
  function WordsInside(q: string): string -> bool
  {
    k => AllWordsInside(Words(q), Words(k))
  }

  /** Third tier: the name starts with the first three characters of the query. */
  function SharesStart(q: string): string -> bool
    requires |q| > 2
  {
    k => StartsWith(k, q[..3])
  }

  /** The matches of the first tier that gives any, in index order. */
  function Candidates(keys: seq<string>, q: string): seq<string>
  {
    var first := Filter(keys, Overlaps(q));
    if first != [] then first
    else
      var second := Filter(keys, WordsInside(q));
      if second != [] || |q| <= 2 then second
      else Filter(keys, SharesStart(q))
  }

  /** The answer to the selection prompt: one of the first ten matches by its 1-based
      number, or nothing for any other input. */
  function Choose(matches: seq<string>, choice: Option<nat>): (r: Option<string>)
  {
    if |matches| == 1 then Some(matches[0])
    else if |matches| > 1 && choice.Some? && 1 <= choice.value <= 10 && choice.value <= |matches| then
      Some(matches[choice.value - 1])
    else None
  }

  /** `find_person(query)`, with `choice` standing for the digits typed at the prompt when
      several people match (`None` for anything else). */
  function FindPerson(keys: seq<string>, query: string, choice: Option<nat>): Option<string>
  {
    FindNormalized(keys, Sanitize(query), choice)
  }

  /** `find_person` once the query is normalised to `q`. */
  function FindNormalized(keys: seq<string>, q: string, choice: Option<nat>): Option<string>
  {
    if q in keys then Some(q) else Choose(Distinct(Candidates(keys, q)), choice)
  }

  /** Each tier is searched only when the tiers before it found nothing, and the last tier
      only for a query of more than two characters. */
  lemma CandidatesSpec(keys: seq<string>, q: string)
    ensures var c := Candidates(keys, q);
            (forall k | k in c :: k in keys)
            && (Filter(keys, Overlaps(q)) != [] ==> c == Filter(keys, Overlaps(q)))
            && (Filter(keys, Overlaps(q)) == [] && Filter(keys, WordsInside(q)) != [] ==> c == Filter(keys, WordsInside(q)))
            && (c != [] && Filter(keys, Overlaps(q)) == [] && Filter(keys, WordsInside(q)) == [] ==>
                  |q| > 2 && forall k | k in c :: StartsWith(k, q[..3]))
  {
  }

  /** `find_person` returns an indexed name or nothing: the normalised query itself whenever
      it is indexed, the only match without asking, nothing when there is no match, and
      otherwise the chosen one of the matches. */
  lemma FindNormalizedSpec(keys: seq<string>, q: string, choice: Option<nat>)
    ensures var r := FindNormalized(keys, q, choice);
            var m := Distinct(Candidates(keys, q));
            (r.Some? ==> r.value in keys)
            && (q in keys ==> r == Some(q))
            && (q !in keys && |m| == 1 ==> r == Some(m[0]))
            && (q !in keys && m == [] ==> r.None?)
            && (q !in keys && |m| > 1 ==>
                  (r.Some? <==> choice.Some? && 1 <= choice.value <= 10 && choice.value <= |m|)
                  && (r.Some? ==> r.value == m[choice.value - 1]))
  {
    var c := Candidates(keys, q);
    CandidatesSpec(keys, q);
    ChosenMatch(Distinct(c), choice);
  }

  /** A chosen name is one of the matches. */
  lemma ChosenMatch(m: seq<string>, choice: Option<nat>)
    ensures Choose(m, choice).Some? ==> Choose(m, choice).value in Elems(m)
  {
  }

  /** `for person_name in person_names.keys(): if test(person_name): matches.append(...)`. */
  method MatchingNames(keys: seq<string>, test: string -> bool) returns (matches: seq<string>)
    ensures matches == Filter(keys, test)
  {
    matches := [];
    var i := 0;
    while i < |keys|
      invariant i <= |keys| && matches + Filter(keys[i..], test) == Filter(keys, test)
    {
      assert keys[i..][1..] == keys[i + 1..];
      if test(keys[i]) {
        matches := matches + [keys[i]];
      }
      i := i + 1;
    }
    assert keys[i..] == [];
  }

  // ---- bfs_shortest_path and calculate_separation_degrees ----

  /** `p` is a walk from `a` to `b` along the graph's edges. */
  predicate IsPath(g: Graph, p: seq<string>, a: string, b: string)
  {
    p != [] && p[0] == a && p[|p| - 1] == b && forall i | 0 <= i < |p| - 1 :: Edge(g, p[i], p[i + 1])
  }

  /** Every node the search can reach: the start and every connection in the graph. */
  function Reach(g: Graph, start: string): set<string>
  {
    {start} + set u, v | u in g && v in g[u] :: v
  }

  /** A queued person with the path that reached it. */
  datatype Entry = Entry(node: string, path: seq<string>)

  /** A queued entry's path is a walk from `start` to the entry's person, repeating no one,
      through visited people only. */
  predicate Walk(g: Graph, start: string, visited: set<string>, e: Entry)
  {
    IsPath(g, e.path, start, e.node) && NoDup(e.path) && Elems(e.path) <= visited
  }

  predicate Walks(g: Graph, start: string, visited: set<string>, queue: seq<Entry>)
  {
    forall e | e in queue :: Walk(g, start, visited, e)
  }

  /** Queueing a new person reached from a queued walk's end keeps every queued entry a
      walk, the new one included. */
  lemma QueueNeighbour(g: Graph, start: string, visited: set<string>, queue: seq<Entry>, e: Entry, n: string)
    requires Walks(g, start, visited, queue) && Walk(g, start, visited, e) && Edge(g, e.node, n) && n !in visited
    ensures Walks(g, start, visited + {n}, queue + [Entry(n, e.path + [n])])
  {
    ExtendPath(g, e.path, start, e.node, n);
    assert Elems(e.path + [n]) == Elems(e.path) + {n};
  }

  /** Marking a reachable node visited leaves one fewer unvisited. */
  lemma MarkReached(reach: set<string>, visited: set<string>, n: string)
    requires n in reach && n !in visited
    ensures |reach - (visited + {n})| == |reach - visited| - 1
  {
    assert reach - visited == (reach - (visited + {n})) + {n};
  }

  /** A walk to a node, extended by an edge from it, is a walk to the new node; with the
      new node off the walk, its nodes stay distinct. */
  lemma ExtendPath(g: Graph, p: seq<string>, a: string, b: string, n: string)
    requires IsPath(g, p, a, b) && Edge(g, b, n)
    ensures IsPath(g, p + [n], a, n)
    ensures NoDup(p) && n !in p ==> NoDup(p + [n])
  {
    var q := p + [n];
    forall i | 0 <= i < |q| - 1 ensures Edge(g, q[i], q[i + 1]) {
      if i < |p| - 1 {
        assert q[i] == p[i] && q[i + 1] == p[i + 1];
      }
    }
    if NoDup(p) && n !in p {
      NoDupSnoc(p, n);
    }
  }

  function Reversed<T>(s: seq<T>): (r: seq<T>)
    ensures |r| == |s| && forall i | 0 <= i < |s| :: r[i] == s[|s| - 1 - i]
  {
    seq(|s|, i requires 0 <= i < |s| => s[|s| - 1 - i])
  }

  /** The outcome of `calculate_separation_degrees`. */
  datatype Separation =
    | FirstNotFound
    | SecondNotFound
    | NoConnection(name1: string, name2: string)
    | Connected(degrees: nat, path: seq<string>, names: seq<string>)

  /** What `calculate_separation_degrees` may answer when its queries resolve to `p1` and
      `p2`: "first not found" for a missing or empty first person, before the second is
      looked at; then "second not found"; otherwise a connection or "no connection", where
      the same person is connected to itself by the one-person path, two people outside the
      graph are never connected, and a connection is a repeat-free walk of at most seven
      people, in one direction or the other, shown from the first person to the second. */
  ghost predicate SeparationAnswer(index: Index, graph: Graph, p1: Option<string>, p2: Option<string>, res: Separation)
  {
    (p1.None? || p1.value == "" ==> res == FirstNotFound)
    && (p1.Some? && p1.value != "" && (p2.None? || p2.value == "") ==> res == SecondNotFound)
    && (p1.Some? && p1.value != "" && p2.Some? && p2.value != "" ==> res.NoConnection? || res.Connected?)
    && (p1.Some? && p1.value != "" && p2 == p1 ==> res == Connected(0, [p1.value], [Display(index, p1.value)]))
    && (p1.Some? && p1.value != "" && p2.Some? && p2.value != "" && p1.value != p2.value
        && p1.value !in graph && p2.value !in graph
        ==> res == NoConnection(Display(index, p1.value), Display(index, p2.value)))
    && (res.NoConnection? ==> p1.Some? && p2.Some? && res == NoConnection(Display(index, p1.value), Display(index, p2.value)))
    && (res.Connected? ==>
          p1.Some? && p2.Some?
          && (IsPath(graph, res.path, p1.value, p2.value) || IsPath(graph, Reversed(res.path), p2.value, p1.value))
          && res.path[0] == p1.value && res.path[|res.path| - 1] == p2.value
          && NoDup(res.path) && |res.path| <= 7 && res.degrees == |res.path| - 1 && res.degrees <= 6
          && |res.names| == |res.path| && forall i | 0 <= i < |res.path| :: res.names[i] == Display(index, res.path[i]))
  }

  /** `SixDegreesCalculator`: the index and the graph that construction builds. */
  class Calculator {
    const index: Index
    var graph: Graph

    /** `SixDegreesCalculator(pages_directory)` over the loaded index and saved pages. */
    constructor (index: Index, pages: seq<SavedPage>)
      ensures this.index == index && graph == Connect(map[], index.keys, pages)
    {
      this.index := index;
      graph := map[];
      new;
      BuildConnectionGraph(pages);
    }

    /** `build_connection_graph()`. */
    method BuildConnectionGraph(pages: seq<SavedPage>)
      modifies this`graph
      ensures graph == Connect(old(graph), index.keys, pages)
    {
      var i := 0;
      while i < |pages|
        invariant i <= |pages| && Connect(graph, index.keys, pages[i..]) == Connect(old(graph), index.keys, pages)
      {
        assert pages[i..][1..] == pages[i + 1..];
        var mentioned := ExtractPersonLinks(index.keys, pages[i].anchors);
        var current := Sanitize(pages[i].name);
        var j := 0;
        ghost var g0 := graph;
        while j < |mentioned|
          invariant j <= |mentioned| && MentionAll(graph, current, mentioned[j..]) == MentionAll(g0, current, mentioned)
        {
          assert mentioned[j..][1..] == mentioned[j + 1..];
          if mentioned[j] != current {
            graph := graph[current := (if current in graph then graph[current] else {}) + {mentioned[j]}];
          }
          j := j + 1;
        }
        i := i + 1;
      }
    }

    /** `find_person(query)`, the tiers searched by loops. */
    method Find(query: string, choice: Option<nat>) returns (r: Option<string>)
      ensures r == FindPerson(index.keys, query, choice)
    {
      var q := Sanitize(query);
      r := FindIn(q, choice);
    }

    /** The body of `find_person` after the query is normalised. */
    method FindIn(q: string, choice: Option<nat>) returns (r: Option<string>)
      ensures r == FindNormalized(index.keys, q, choice)
    {
      if q in index.keys {
        return Some(q);
      }
      var matches := MatchingNames(index.keys, Overlaps(q));
      if matches == [] {
        matches := MatchingNames(index.keys, WordsInside(q));
      }
      if matches == [] && |q| > 2 {
        matches := MatchingNames(index.keys, SharesStart(q));
      }
      assert matches == Candidates(index.keys, q);
      matches := Distinct(matches);
      r := Choose(matches, choice);
    }

    /** `bfs_shortest_path(start, end)`: a breadth-first search that extends paths only while
        they have fewer than six nodes, visiting the connections of a person in any order.
        A path it returns runs along the graph's edges from `start` to `end`, repeats no
        person and has at most seven nodes, that is at most six degrees. */
    method BfsShortestPath(start: string, end: string) returns (r: Option<seq<string>>)
      ensures start == end ==> r == Some([start])
      ensures start != end && (start !in graph || end !in index.keys) ==> r == None
      ensures r.Some? ==> IsPath(graph, r.value, start, end) && NoDup(r.value) && |r.value| <= 7
    {
      if start == end {
        return Some([start]);
      }
      if start !in graph {
        return None;
      }
      if end !in index.keys {
        return None;
      }
      ghost var reach := Reach(graph, start);
      var visited := {start};
      var queue := [Entry(start, [start])];
      while queue != []
        invariant start in visited && end !in visited && visited <= reach
        invariant Walks(graph, start, visited, queue)
        decreases 2 * |reach - visited| + |queue|
      {
        ghost var bound := 2 * |reach - visited| + |queue|;
        var entry := queue[0];
        assert entry in queue;
        var current := entry.node;
        var path := entry.path;
        queue := queue[1..];
        if |path| > 6 {
          continue;
        }
        var rest := if current in graph then graph[current] else {};
        while rest != {}
          invariant forall n | n in rest :: Edge(graph, current, n)
          invariant start in visited && end !in visited && visited <= reach
          invariant Walk(graph, start, visited, entry) && Walks(graph, start, visited, queue)
          invariant 2 * |reach - visited| + |queue| < bound
          decreases |rest|
        {
          var n :| n in rest;
          rest := rest - {n};
          if n == end {
            ExtendPath(graph, path, start, current, n);
            return Some(path + [n]);
          }
          if n !in visited && |path| < 6 {
            assert n in reach;
            MarkReached(reach, visited, n);
            QueueNeighbour(graph, start, visited, queue, entry, n);
            visited := visited + {n};
            queue := queue + [Entry(n, path + [n])];
          }
        }
      }
      return None;
    }

    /** The loop of `calculate_separation_degrees` that shows each person of a path by the
        name of their page. */
    method DisplayNames(path: seq<string>) returns (names: seq<string>)
      ensures |names| == |path|
      ensures forall i | 0 <= i < |path| :: names[i] == Display(index, path[i])
    {
      names := [];
      var i := 0;
      while i < |path|
        invariant i <= |path| && |names| == i && forall j | 0 <= j < i :: names[j] == Display(index, path[j])
      {
        names := names + [Display(index, path[i])];
        i := i + 1;
      }
    }

    /** The two searches of `calculate_separation_degrees`: from `a` to `b`, and when that
        finds nothing, from `b` to `a`, reversed. Either way the path runs from `a` to `b`. */
    method SearchBothWays(a: string, b: string) returns (path: Option<seq<string>>)
      ensures a == b ==> path == Some([a])
      ensures a != b && a !in graph && b !in graph ==> path == None
      ensures path.Some? ==>
                (IsPath(graph, path.value, a, b) || IsPath(graph, Reversed(path.value), b, a))
                && path.value[0] == a && path.value[|path.value| - 1] == b
                && NoDup(path.value) && |path.value| <= 7
    {
      path := BfsShortestPath(a, b);
      if path.None? {
        var reversePath := BfsShortestPath(b, a);
        if reversePath.Some? {
          ReversedPath(reversePath.value);
          path := Some(Reversed(reversePath.value));
        }
      }
    }

    /** `calculate_separation_degrees` once both people are found: search both ways, and
        show the path found by the names of its people, or report that there is none. */
    method Separate(a: string, b: string) returns (res: Separation)
      requires a != "" && b != ""
      ensures SeparationAnswer(index, graph, Some(a), Some(b), res)
    {
      var path := SearchBothWays(a, b);
      if path.None? {
        return NoConnection(Display(index, a), Display(index, b));
      }
      var names := DisplayNames(path.value);
      res := Connected(|path.value| - 1, path.value, names);
    }

    /** `calculate_separation_degrees(q1, q2)`: resolve both queries, search from the first
        person to the second, and from the second to the first, reversed, when that fails. */
    method CalculateSeparation(q1: string, q2: string, choice1: Option<nat>, choice2: Option<nat>)
      returns (res: Separation)
      ensures SeparationAnswer(index, graph, FindPerson(index.keys, q1, choice1), FindPerson(index.keys, q2, choice2), res)
    {
      var person1 := Find(q1, choice1);
      if person1.None? || person1.value == "" {
        return FirstNotFound;
      }
      var person2 := Find(q2, choice2);
      if person2.None? || person2.value == "" {
        return SecondNotFound;
      }
      res := Separate(person1.value, person2.value);
    }
  }

  /** Reversing twice gives the sequence back, and reversing keeps the elements distinct. */
  lemma ReversedPath<T>(s: seq<T>)
    ensures Reversed(Reversed(s)) == s
    ensures NoDup(s) ==> NoDup(Reversed(s))
  {
  }
}
