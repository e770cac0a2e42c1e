/** The link-gathering loops the crawlers share: walk a region's anchors that match
    `^/wiki/[^:]+$`, keep those a crawler-specific filter accepts, and append them, resolved
    or not, to a list. Each loop is specified by a function over the page regions. */
module Links {
  import opened Seqs
  import opened Strings
  import opened Page

  /** `region.find_all("a", href=re.compile(r"^/wiki/[^:]+$"))`, as hrefs. */
  function ArticleLinks(hrefs: seq<string>): (r: seq<string>)
    ensures forall h | h in r :: IsArticleHref(h) && h in hrefs
  {
    Filter(hrefs, IsArticleHref)
  }

  /** The hrefs `keep` accepts, each passed through `resolve`, in order. */
  function Kept(hrefs: seq<string>, keep: string -> bool, resolve: string -> string): (r: seq<string>)
    ensures |r| <= |hrefs|
  {
    MapSeq(Filter(hrefs, keep), resolve)
  }

  /** An article href has no colon, so it contains none of the namespace markers, which all
      carry one. */
  lemma ArticleHrefAvoids(h: string, markers: seq<string>)
    requires IsArticleHref(h) && forall m | m in markers :: ':' in m
    ensures forall m | m in markers :: !Contains(h, m)
  {
    forall m | m in markers ensures !Contains(h, m) {
      if Contains(h, m) {
        ContainedChars(h, m);
      }
    }
  }

  /** Every kept link is the resolution of an accepted href. */
  lemma KeptFrom(hrefs: seq<string>, keep: string -> bool, resolve: string -> string, l: string)
    requires l in Kept(hrefs, keep, resolve)
    ensures exists h | h in hrefs :: keep(h) && l == resolve(h)
  {
    var kept := Filter(hrefs, keep);
    var i :| 0 <= i < |kept| && Kept(hrefs, keep, resolve)[i] == l;
    assert kept[i] in kept;
  }

  function Id(s: string): string
  {
    s
  }

  /** The links of one block: its accepted article links when its lower-cased text mentions
      one of `triggers`, none otherwise. */
  function BlockTriggered(b: Block, triggers: seq<string>, keep: string -> bool, resolve: string -> string)
    : seq<string>
  {
    if ContainsAny(Lower(b.text), triggers) then Kept(ArticleLinks(b.hrefs), keep, resolve) else []
  }

  function TriggeredIn(triggers: seq<string>, keep: string -> bool, resolve: string -> string): Block -> seq<string>
  {
    b => BlockTriggered(b, triggers, keep, resolve)
  }

  /** Links of every block whose lower-cased text mentions one of `triggers`: the loops
      `for para in paragraphs: if any(w in para.get_text().lower() for w in triggers): ...`. */
  function TriggeredLinks(blocks: seq<Block>, triggers: seq<string>, keep: string -> bool, resolve: string -> string)
    : seq<string>
  {
    FlatMap(blocks, TriggeredIn(triggers, keep, resolve))
  }

  /** Every gathered link comes from an accepted article anchor of a block that mentions a
      trigger word. */
  lemma {:induction false} TriggeredLinksFrom(blocks: seq<Block>, triggers: seq<string>, keep: string -> bool,
                                              resolve: string -> string)
    ensures forall l | l in TriggeredLinks(blocks, triggers, keep, resolve) :: exists b, h | b in blocks && h in b.hrefs ::
              ContainsAny(Lower(b.text), triggers) && IsArticleHref(h) && keep(h) && l == resolve(h)
  {
    if blocks != [] {
      var b := blocks[0];
      TriggeredLinksFrom(blocks[1..], triggers, keep, resolve);
      forall l | l in TriggeredLinks(blocks, triggers, keep, resolve)
        ensures exists b, h | b in blocks && h in b.hrefs ::
                  ContainsAny(Lower(b.text), triggers) && IsArticleHref(h) && keep(h) && l == resolve(h)
      {
        var here := if ContainsAny(Lower(b.text), triggers) then Kept(ArticleLinks(b.hrefs), keep, resolve) else [];
        if l in here {
          KeptFrom(ArticleLinks(b.hrefs), keep, resolve, l);
          var h :| h in ArticleLinks(b.hrefs) && keep(h) && l == resolve(h);
          assert b in blocks && h in b.hrefs;
        } else {
          assert l in TriggeredLinks(blocks[1..], triggers, keep, resolve);
          var b', h :| b' in blocks[1..] && h in b'.hrefs
                       && ContainsAny(Lower(b'.text), triggers) && IsArticleHref(h) && keep(h) && l == resolve(h);
          assert b' in blocks;
        }
      }
    }
  }

  /** The accepted links among the first `perBlock` article anchors of one block. */
  function BlockCapped(b: Block, perBlock: nat, keep: string -> bool): seq<string>
  {
    Kept(Take(ArticleLinks(b.hrefs), perBlock), keep, Id)
  }

  function CappedIn(perBlock: nat, keep: string -> bool): Block -> seq<string>
  {
    b => BlockCapped(b, perBlock, keep)
  }

  /** At most `perBlock` links of each block: `for lst in lists: for a in lst.find_all(...)[:perBlock]`. */
  function CappedLinks(blocks: seq<Block>, perBlock: nat, keep: string -> bool): seq<string>
  {
    FlatMap(blocks, CappedIn(perBlock, keep))
  }

  /** Each block contributes at most `perBlock` links. */
  lemma {:induction false} CappedLinksBound(blocks: seq<Block>, perBlock: nat, keep: string -> bool)
    ensures |CappedLinks(blocks, perBlock, keep)| <= perBlock * |blocks|
  {
    if blocks != [] {
      CappedLinksBound(blocks[1..], perBlock, keep);
      assert |BlockCapped(blocks[0], perBlock, keep)| <= perBlock;
      MulSucc(perBlock, |blocks[1..]|);
    }
  }

  lemma MulSucc(a: nat, n: nat)
    ensures a * (n + 1) == a * n + a
  {
  }

  /** Every capped link is an accepted article link. */
  lemma {:induction false} CappedLinksKept(blocks: seq<Block>, perBlock: nat, keep: string -> bool)
    ensures forall l | l in CappedLinks(blocks, perBlock, keep) :: IsArticleHref(l) && keep(l)
  {
    if blocks != [] {
      CappedLinksKept(blocks[1..], perBlock, keep);
      var anchors := Take(ArticleLinks(blocks[0].hrefs), perBlock);
      forall l | l in BlockCapped(blocks[0], perBlock, keep) ensures IsArticleHref(l) && keep(l) {
        KeptFrom(anchors, keep, Id, l);
        var h :| h in anchors && keep(h) && l == h;
        assert h in ArticleLinks(blocks[0].hrefs);
      }
    }
  }

  /** The inner loop: `for h in hrefs: if keep(h): links.append(resolve(h))`. */
  method AppendKept(links: seq<string>, hrefs: seq<string>, keep: string -> bool, resolve: string -> string)
    returns (out: seq<string>)
    ensures out == links + Kept(hrefs, keep, resolve)
  {
    out := links;
    var i := 0;
    while i < |hrefs|
      invariant i <= |hrefs|
      invariant out == links + Kept(hrefs[..i], keep, resolve)
    {
      assert hrefs[..i + 1] == hrefs[..i] + [hrefs[i]];
      FilterAppend(hrefs[..i], [hrefs[i]], keep);
      MapSeqAppend(Filter(hrefs[..i], keep), Filter([hrefs[i]], keep), resolve);
      if keep(hrefs[i]) {
        out := out + [resolve(hrefs[i])];
      }
      i := i + 1;
    }
    assert hrefs[..i] == hrefs;
  }

  lemma TriggeredLinksSnoc(blocks: seq<Block>, b: Block, triggers: seq<string>, keep: string -> bool, resolve: string -> string)
    ensures TriggeredLinks(blocks + [b], triggers, keep, resolve)
         == TriggeredLinks(blocks, triggers, keep, resolve) + BlockTriggered(b, triggers, keep, resolve)
  {
    FlatMapSnoc(blocks, b, TriggeredIn(triggers, keep, resolve));
  }

  lemma CappedLinksSnoc(blocks: seq<Block>, b: Block, perBlock: nat, keep: string -> bool)
    ensures CappedLinks(blocks + [b], perBlock, keep)
         == CappedLinks(blocks, perBlock, keep) + BlockCapped(b, perBlock, keep)
  {
    FlatMapSnoc(blocks, b, CappedIn(perBlock, keep));
  }

  lemma TriggeredLinksPrefix(blocks: seq<Block>, i: nat, triggers: seq<string>, keep: string -> bool,
                             resolve: string -> string)
    requires i < |blocks|
    ensures TriggeredLinks(blocks[..i + 1], triggers, keep, resolve)
         == TriggeredLinks(blocks[..i], triggers, keep, resolve)
          + (if ContainsAny(Lower(blocks[i].text), triggers) then Kept(ArticleLinks(blocks[i].hrefs), keep, resolve) else [])
  {
    assert blocks[..i + 1] == blocks[..i] + [blocks[i]];
    TriggeredLinksSnoc(blocks[..i], blocks[i], triggers, keep, resolve);
  }

  lemma CappedLinksPrefix(blocks: seq<Block>, i: nat, perBlock: nat, keep: string -> bool)
    requires i < |blocks|
    ensures CappedLinks(blocks[..i + 1], perBlock, keep)
         == CappedLinks(blocks[..i], perBlock, keep) + Kept(Take(ArticleLinks(blocks[i].hrefs), perBlock), keep, Id)
  {
    assert blocks[..i + 1] == blocks[..i] + [blocks[i]];
    CappedLinksSnoc(blocks[..i], blocks[i], perBlock, keep);
  }

  /** One pass of the loop of `CollectTriggered` extends the gathered links by the block's. */
  lemma TriggeredLinksStep(links: seq<string>, blocks: seq<Block>, i: nat, triggers: seq<string>, keep: string -> bool,
                           resolve: string -> string, before: seq<string>, after: seq<string>)
    requires i < |blocks| && before == links + TriggeredLinks(blocks[..i], triggers, keep, resolve)
    requires after == before + (if ContainsAny(Lower(blocks[i].text), triggers)
                                then Kept(ArticleLinks(blocks[i].hrefs), keep, resolve) else [])
    ensures after == links + TriggeredLinks(blocks[..i + 1], triggers, keep, resolve)
  {
    TriggeredLinksPrefix(blocks, i, triggers, keep, resolve);
  }

  /** One pass of the loop of `CollectCapped` extends the gathered links by the block's. */
  lemma CappedLinksStep(links: seq<string>, blocks: seq<Block>, i: nat, perBlock: nat, keep: string -> bool,
                        before: seq<string>, after: seq<string>)
    requires i < |blocks| && before == links + CappedLinks(blocks[..i], perBlock, keep)
    requires after == before + Kept(Take(ArticleLinks(blocks[i].hrefs), perBlock), keep, Id)
    ensures after == links + CappedLinks(blocks[..i + 1], perBlock, keep)
  {
    CappedLinksPrefix(blocks, i, perBlock, keep);
  }

  /** The outer loop over blocks that mention a trigger word. */
  method CollectTriggered(links: seq<string>, blocks: seq<Block>, triggers: seq<string>, keep: string -> bool,
                          resolve: string -> string)
    returns (out: seq<string>)
    ensures out == links + TriggeredLinks(blocks, triggers, keep, resolve)
  {
    out := links;
    var i := 0;
    while i < |blocks|
      invariant i <= |blocks|
      invariant out == links + TriggeredLinks(blocks[..i], triggers, keep, resolve)
    {
      var b := blocks[i];
      ghost var before := out;
      if ContainsAny(Lower(b.text), triggers) {
        out := AppendKept(out, ArticleLinks(b.hrefs), keep, resolve);
      }
      TriggeredLinksStep(links, blocks, i, triggers, keep, resolve, before, out);
      i := i + 1;
    }
    assert blocks[..i] == blocks;
  }

  /** The outer loop over blocks, taking at most `perBlock` anchors of each. */
  method CollectCapped(links: seq<string>, blocks: seq<Block>, perBlock: nat, keep: string -> bool)
    returns (out: seq<string>)
    ensures out == links + CappedLinks(blocks, perBlock, keep)
  {
    out := links;
    var i := 0;
    while i < |blocks|
      invariant i <= |blocks|
      invariant out == links + CappedLinks(blocks[..i], perBlock, keep)
    {
      ghost var before := out;
      out := AppendKept(out, Take(ArticleLinks(blocks[i].hrefs), perBlock), keep, Id);
      CappedLinksStep(links, blocks, i, perBlock, keep, before, out);
      i := i + 1;
    }
    assert blocks[..i] == blocks;
  }
}
