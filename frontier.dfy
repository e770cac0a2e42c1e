/** Operations on the crawl frontier, the `links_to_visit` deque: splitting new links into two
    groups in one pass, and pushing links to either end unless the deque already holds them. */
module Frontier {
  import opened Seqs

  /** `for l in links: (yes if p(l) else no).append(l)`: a stable partition. */
  method SplitBy(links: seq<string>, p: string -> bool) returns (yes: seq<string>, no: seq<string>)
    ensures yes == Filter(links, p) && no == FilterOut(links, p)
  {
    yes, no := [], [];
    var i := 0;
    while i < |links|
      invariant i <= |links|
      invariant yes == Filter(links[..i], p) && no == FilterOut(links[..i], p)
    {
      assert links[..i + 1] == links[..i] + [links[i]];
      FilterSnoc(links[..i], links[i], p);
      FilterOutSnoc(links[..i], links[i], p);
      if p(links[i]) {
        yes := yes + [links[i]];
      } else {
        no := no + [links[i]];
      }
      i := i + 1;
    }
    assert links[..i] == links;
  }

  /** `for l in links: if l not in queue: queue.appendleft(l)`. */
  function PushFrontNew(queue: seq<string>, links: seq<string>): seq<string>
    decreases |links|
  {
    if links == [] then queue
    else PushFrontNew(if links[0] in queue then queue else [links[0]] + queue, links[1..])
  }

  /** `for l in links: if l not in queue: queue.append(l)`. */
  function PushBackNew(queue: seq<string>, links: seq<string>): seq<string>
    decreases |links|
  {
    if links == [] then queue
    else PushBackNew(if links[0] in queue then queue else queue + [links[0]], links[1..])
  }

  /** Pushing to the front keeps the old deque as a suffix and adds at most one element per
      link. */
  lemma {:induction false} PushFrontNewKeepsSuffix(queue: seq<string>, links: seq<string>)
    ensures var r := PushFrontNew(queue, links);
            |queue| <= |r| <= |queue| + |links| && r[|r| - |queue|..] == queue
    decreases |links|
  {
    if links != [] {
      var q := if links[0] in queue then queue else [links[0]] + queue;
      PushFrontNewKeepsSuffix(q, links[1..]);
      var r := PushFrontNew(q, links[1..]);
      assert PushFrontNew(queue, links) == r;
      if links[0] !in queue {
        SuffixTail(r, |r| - |q|, links[0], queue);
      }
    }
  }

  lemma SuffixTail(r: seq<string>, m: nat, x: string, queue: seq<string>)
    requires m <= |r| && r[m..] == [x] + queue
    ensures r[m + 1..] == queue
  {
    assert r[m + 1..] == r[m..][1..];
  }

  /** Pushing to the front adds exactly the new links to the deque's elements. */
  lemma {:induction false} PushFrontNewElems(queue: seq<string>, links: seq<string>)
    ensures Elems(PushFrontNew(queue, links)) == Elems(queue) + Elems(links)
    decreases |links|
  {
    if links != [] {
      var q := if links[0] in queue then queue else [links[0]] + queue;
      PushFrontNewElems(q, links[1..]);
      assert links == [links[0]] + links[1..];
      assert Elems(links) == {links[0]} + Elems(links[1..]);
      assert Elems(q) == Elems(queue) + {links[0]};
    }
  }

  /** Pushing to the front never duplicates an element. */
  lemma {:induction false} PushFrontNewNoDup(queue: seq<string>, links: seq<string>)
    requires NoDup(queue)
    ensures NoDup(PushFrontNew(queue, links))
    decreases |links|
  {
    if links != [] {
      var q := if links[0] in queue then queue else [links[0]] + queue;
      if links[0] !in queue {
        forall i, j | 0 <= i < j < |q| ensures q[i] != q[j] {
          assert q[j] == queue[j - 1];
          if i > 0 {
            assert q[i] == queue[i - 1];
          }
        }
      }
      PushFrontNewNoDup(q, links[1..]);
    }
  }

  /** Pushing to the back keeps the old deque as a prefix, adds exactly the links not yet
      present, adds each of them once, and keeps a duplicate-free deque duplicate-free. */
  lemma {:induction false} PushBackNewSpec(queue: seq<string>, links: seq<string>)
    ensures var r := PushBackNew(queue, links);
            |queue| <= |r| <= |queue| + |links|
            && queue <= r
            && Elems(r) == Elems(queue) + Elems(links)
            && (NoDup(queue) ==> NoDup(r))
    decreases |links|
  {
    if links != [] {
      var q := if links[0] in queue then queue else queue + [links[0]];
      PushBackNewSpec(q, links[1..]);
      assert links == [links[0]] + links[1..];
      assert Elems(links) == {links[0]} + Elems(links[1..]);
      if links[0] !in queue && NoDup(queue) {
        NoDupSnoc(queue, links[0]);
      }
    }
  }

  /** A link already in the deque is never pushed again, and a link not yet in it is pushed
      (to the back) exactly when it is among the new links. */
  lemma PushBackNewMembership(queue: seq<string>, links: seq<string>, l: string)
    ensures l in PushBackNew(queue, links) <==> l in queue || l in links
  {
    PushBackNewSpec(queue, links);
    assert l in Elems(PushBackNew(queue, links)) <==> l in Elems(queue) || l in Elems(links);
  }

  /** What pushing to the back appends: links of `links` the deque did not hold, each once. */
  lemma {:induction false} PushBackNewAdded(queue: seq<string>, links: seq<string>)
    ensures var r := PushBackNew(queue, links);
            queue <= r && NoDup(r[|queue|..]) && (forall l | l in r[|queue|..] :: l in links && l !in queue)
    decreases |links|
  {
    if links != [] {
      var x := links[0];
      var q := if x in queue then queue else queue + [x];
      PushBackNewAdded(q, links[1..]);
      PushBackNewSpec(q, links[1..]);
      var r := PushBackNew(q, links[1..]);
      assert PushBackNew(queue, links) == r;
      assert forall l | l in links[1..] :: l in links;
      if x !in queue {
        var tail := r[|q|..];
        assert r[|queue|..] == [x] + tail;
        assert forall l | l in tail :: l != x && l !in queue;
      }
    }
  }

  /** The test `link not in visited_links`. */
  function Unvisited(visited: set<string>): string -> bool
  {
    l => l !in visited
  }

  /** `for l in links: if l not in visited: queue.append(l)`: no check against the deque
      itself, so a link can be queued twice. */
  function PushBackUnvisited(queue: seq<string>, visited: set<string>, links: seq<string>): seq<string>
    decreases |links|
  {
    if links == [] then queue
    else PushBackUnvisited(if links[0] in visited then queue else queue + [links[0]], visited, links[1..])
  }

  /** The deque gains exactly the unvisited links, in their order, repeats included. */
  lemma {:induction false} PushBackUnvisitedSpec(queue: seq<string>, visited: set<string>, links: seq<string>)
    ensures PushBackUnvisited(queue, visited, links) == queue + Filter(links, Unvisited(visited))
    decreases |links|
  {
    if links != [] {
      var x := links[0];
      var q := if x in visited then queue else queue + [x];
      PushBackUnvisitedSpec(q, visited, links[1..]);
      var rest := Filter(links[1..], Unvisited(visited));
      if x !in visited {
        assert Filter(links, Unvisited(visited)) == [x] + rest;
        assert q + rest == queue + ([x] + rest);
      } else {
        assert Filter(links, Unvisited(visited)) == rest;
      }
    }
  }

  method PushFront(queue: seq<string>, links: seq<string>) returns (r: seq<string>)
    ensures r == PushFrontNew(queue, links)
  {
    r := queue;
    var i := 0;
    while i < |links|
      invariant i <= |links|
      invariant PushFrontNew(r, links[i..]) == PushFrontNew(queue, links)
    {
      assert links[i..][1..] == links[i + 1..];
      if links[i] !in r {
        r := [links[i]] + r;
      }
      i := i + 1;
    }
  }

  method PushBack(queue: seq<string>, links: seq<string>) returns (r: seq<string>)
    ensures r == PushBackNew(queue, links)
  {
    r := queue;
    var i := 0;
    while i < |links|
      invariant i <= |links|
      invariant PushBackNew(r, links[i..]) == PushBackNew(queue, links)
    {
      assert links[i..][1..] == links[i + 1..];
      if links[i] !in r {
        r := r + [links[i]];
      }
      i := i + 1;
    }
  }
}
