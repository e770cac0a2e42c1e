/** `make_request`: the bounded retry loop of the final, the wiki and the bypass crawler.
    The three differ only in what they do around each attempt, which a `Policy` records;
    `Retry` specifies the loop once for all three and `MakeRequest` runs it.

    Sleeps are not performed: the model records each one as an action carrying the bounds of
    its `random.uniform` window, in milliseconds. */
module Fetch {
  import opened Seqs
  import opened Page
  import opened Sessions

  /** The bounds of `random.uniform(lo, hi)` seconds, in milliseconds. */
  datatype Window = Window(lo: nat, hi: nat)

  /** What one attempt does, in order. */
  datatype Action =
    | Rotate             // get_session(): move to the next session of the pool
    | Pause(w: Window)   // time.sleep(random.uniform(...))
    | NewHeaders         // update_session_headers(): a new random User-Agent
    | Send               // session.get(url)

  /** The behaviour of one crawler's `make_request`. */
  datatype Policy = Policy(
    rotates: bool,               // takes a new session from the pool before each attempt
    jitter: Window,              // pause before every request
    blocked: Window,             // pause after a 403 on a non-final attempt
    newHeadersOnBlock: bool,     // changes the User-Agent after a 403 on a non-final attempt
    rateLimited: Option<Window>, // pause after a 429, when the crawler handles 429 at all
    rateLimitedOnFinal: bool,    // ... even after the final attempt
    failed: Window)              // pause after a transport error on a non-final attempt

  /** final_assignment_crawler.py: rotation over 3 sessions; 429 is not singled out. */
  const FINAL_POLICY := Policy(true, Window(800, 1500), Window(3000, 6000), false, None, false, Window(1000, 3000))

  /** wiki_crawler.py: one session whose headers change after a 403; 429 always waits. */
  const WIKI_POLICY := Policy(false, Window(500, 1500), Window(3000, 5000), true, Some(Window(5000, 10000)), true, Window(2000, 2000))

  /** bypass_wikipedia_crawler.py: rotation over 5 sessions; 429 waits on non-final attempts. */
  const BYPASS_POLICY := Policy(true, Window(1000, 3000), Window(5000, 10000), false, Some(Window(10000, 20000)), false, Window(2000, 5000))

  /** The outcome of attempt `k` when the server's answers are `outs`. */
  function Out(outs: seq<Outcome>, k: nat): Outcome
  {
    if k < |outs| then outs[k] else TransportError
  }

  predicate IsOk(o: Outcome)
  {
    o.Response? && o.status == 200
  }

  /** What the policy does after the outcome `o` of an attempt (`final`: it was the last). */
  function Reaction(p: Policy, o: Outcome, final: bool): seq<Action>
  {
    match o
    case TransportError => if final then [] else [Pause(p.failed)]
    case Response(status, _) =>
      if status == 403 then
        if final then [] else (if p.newHeadersOnBlock then [NewHeaders] else []) + [Pause(p.blocked)]
      else if status == 429 && p.rateLimited.Some? && (p.rateLimitedOnFinal || !final) then
        [Pause(p.rateLimited.value)]
      else []
  }

  /** Everything one attempt does. */
  function Attempt(p: Policy, o: Outcome, final: bool): seq<Action>
  {
    (if p.rotates then [Rotate] else []) + [Pause(p.jitter), Send] + (if IsOk(o) then [] else Reaction(p, o, final))
  }

  /** The result of `make_request`: the page of the successful response, if any, the actions
      taken, and the number of requests sent. */
  datatype Fetched = Fetched(doc: Option<Document>, trace: seq<Action>, sent: nat)

  /** Attempts `k`, `k + 1`, ..., `maxRetries - 1` of `make_request(url, maxRetries)`. */
  function Retry(p: Policy, maxRetries: nat, outs: seq<Outcome>, k: nat): Fetched
    decreases maxRetries - k
  {
    if k >= maxRetries then Fetched(None, [], 0)
    else
      var o := Out(outs, k);
      var here := Attempt(p, o, k == maxRetries - 1);
      if IsOk(o) then Fetched(Some(o.doc), here, 1)
      else
        var rest := Retry(p, maxRetries, outs, k + 1);
        Fetched(rest.doc, here + rest.trace, rest.sent + 1)
  }

  /** Number of requests in a trace. */
  function Sends(t: seq<Action>): nat
  {
    if t == [] then 0 else (if t[0] == Send then 1 else 0) + Sends(t[1..])
  }

  /** Number of session rotations in a trace. */
  function Rotations(t: seq<Action>): nat
  {
    if t == [] then 0 else (if t[0] == Rotate then 1 else 0) + Rotations(t[1..])
  }

  lemma {:induction false} CountsAppend(a: seq<Action>, b: seq<Action>)
    ensures Sends(a + b) == Sends(a) + Sends(b)
    ensures Rotations(a + b) == Rotations(a) + Rotations(b)
  {
    if a == [] {
      assert a + b == b;
    } else {
      assert (a + b)[0] == a[0];
      assert (a + b)[1..] == a[1..] + b;
      CountsAppend(a[1..], b);
    }
  }

  lemma AttemptCounts(p: Policy, o: Outcome, final: bool)
    ensures Sends(Attempt(p, o, final)) == 1
    ensures Rotations(Attempt(p, o, final)) == if p.rotates then 1 else 0
  {
    var r := if IsOk(o) then [] else Reaction(p, o, final);
    var pre: seq<Action> := if p.rotates then [Rotate] else [];
    assert Attempt(p, o, final) == pre + [Pause(p.jitter), Send] + r;
    assert [Pause(p.jitter), Send][1..] == [Send];
    assert [Send][1..] == [];
    assert [Rotate][1..] == [];
    CountsAppend(pre, [Pause(p.jitter), Send]);
    CountsAppend(pre + [Pause(p.jitter), Send], r);
    assert Sends(r) == 0 && Rotations(r) == 0 by {
      assert forall a | a in r :: a != Send && a != Rotate;
      NoSendsNoRotations(r);
    }
  }

  lemma {:induction false} NoSendsNoRotations(t: seq<Action>)
    requires forall a | a in t :: a != Send && a != Rotate
    ensures Sends(t) == 0 && Rotations(t) == 0
  {
    if t != [] {
      assert t[0] in t;
      assert forall a | a in t[1..] :: a in t;
      NoSendsNoRotations(t[1..]);
    }
  }

  /** `make_request` sends at most `max_retries` requests, one per attempt, and a rotating
      policy takes exactly one session from the pool per request. */
  lemma {:induction false} RetrySendsAtMost(p: Policy, maxRetries: nat, outs: seq<Outcome>, k: nat)
    requires k <= maxRetries
    ensures Retry(p, maxRetries, outs, k).sent <= maxRetries - k
    ensures Sends(Retry(p, maxRetries, outs, k).trace) == Retry(p, maxRetries, outs, k).sent
    ensures Rotations(Retry(p, maxRetries, outs, k).trace)
         == if p.rotates then Retry(p, maxRetries, outs, k).sent else 0
    decreases maxRetries - k
  {
    if k < maxRetries {
      var o := Out(outs, k);
      AttemptCounts(p, o, k == maxRetries - 1);
      if !IsOk(o) {
        RetrySendsAtMost(p, maxRetries, outs, k + 1);
        CountsAppend(Attempt(p, o, k == maxRetries - 1), Retry(p, maxRetries, outs, k + 1).trace);
      }
    }
  }

  /** `make_request` returns a page exactly when some attempt got status 200, and then it is
      the page of the first such attempt, after which nothing more is sent. */
  lemma {:induction false} RetrySucceedsIff(p: Policy, maxRetries: nat, outs: seq<Outcome>, k: nat)
    ensures Retry(p, maxRetries, outs, k).doc.Some?
        <==> exists j | k <= j < maxRetries :: IsOk(Out(outs, j))
    ensures Retry(p, maxRetries, outs, k).doc.Some? ==>
              var j := k + Retry(p, maxRetries, outs, k).sent - 1;
              k <= j < maxRetries && IsOk(Out(outs, j))
              && Retry(p, maxRetries, outs, k).doc.value == Out(outs, j).doc
              && forall i | k <= i < j :: !IsOk(Out(outs, i))
    decreases maxRetries - k
  {
    if k < maxRetries && !IsOk(Out(outs, k)) {
      RetrySucceedsIff(p, maxRetries, outs, k + 1);
      if exists j | k <= j < maxRetries :: IsOk(Out(outs, j)) {
        var j :| k <= j < maxRetries && IsOk(Out(outs, j));
        assert j != k;
      }
    }
  }

  /** When the policy never waits after its last attempt, `make_request` ends with a request:
      every backoff pause is followed by another attempt. */
  lemma {:induction false} RetryEndsWithSend(p: Policy, maxRetries: nat, outs: seq<Outcome>, k: nat)
    requires !p.rateLimitedOnFinal && k < maxRetries
    ensures var t := Retry(p, maxRetries, outs, k).trace; t != [] && t[|t| - 1] == Send
    decreases maxRetries - k
  {
    var o := Out(outs, k);
    var final := k == maxRetries - 1;
    if IsOk(o) || final {
      assert Reaction(p, o, true) == [];
    } else {
      RetryEndsWithSend(p, maxRetries, outs, k + 1);
    }
  }

  /** wiki_crawler.py still waits after a 429 on its last attempt. */
  lemma WikiWaitsAfterFinalRateLimit(doc: Document)
    ensures var t := Retry(WIKI_POLICY, 1, [Response(429, doc)], 0).trace;
            t == [Pause(WIKI_POLICY.jitter), Send, Pause(Window(5000, 10000))]
  {
  }

  /** The answers `url` still has in store after `k` requests. */
  function Remaining(web: Web, url: string, k: nat): seq<Outcome>
  {
    if url in web && k <= |web[url]| then web[url][k..] else []
  }

  /** The `j`-th attempt of the next `make_request` gets the answer to request `k + j`. */
  lemma RemainingOut(web: Web, url: string, k: nat, j: nat)
    ensures Out(Remaining(web, url, k), j) == Respond(web, url, k + j)
  {
  }

  /** `make_request(url, max_retries)`: up to `maxRetries` attempts against a server that
      answers the `k`-th request with `outs[k]` (a transport error beyond). A rotating
      policy draws one session from `pool` per attempt. */
  method MakeRequest(p: Policy, maxRetries: nat, outs: seq<Outcome>, pool: SessionPool?)
    returns (doc: Option<Document>, trace: seq<Action>, sent: nat)
    requires p.rotates ==> pool != null && pool.Valid()
    modifies pool
    ensures Fetched(doc, trace, sent) == Retry(p, maxRetries, outs, 0)
    ensures p.rotates ==> pool.Valid() && pool.current == After(old(pool.current), pool.size, sent)
    ensures !p.rotates ==> pool == null || pool.current == old(pool.current)
  {
    doc, trace, sent := None, [], 0;
    var attempt: nat := 0;
    while attempt < maxRetries
      invariant attempt <= maxRetries && sent == attempt
      invariant doc == None
      invariant Retry(p, maxRetries, outs, 0)
             == Fetched(Retry(p, maxRetries, outs, attempt).doc, trace + Retry(p, maxRetries, outs, attempt).trace,
                        sent + Retry(p, maxRetries, outs, attempt).sent)
      invariant p.rotates ==> pool.Valid() && pool.current == After(old(pool.current), pool.size, sent)
      invariant !p.rotates ==> pool == null || pool.current == old(pool.current)
      decreases maxRetries - attempt
    {
      if p.rotates {
        var _ := pool.Next();
      }
      var o := Out(outs, attempt);
      var final := attempt == maxRetries - 1;
      var here := Attempt(p, o, final);
      ghost var rest := Retry(p, maxRetries, outs, attempt + 1);
      assert Retry(p, maxRetries, outs, attempt)
          == if IsOk(o) then Fetched(Some(o.doc), here, 1) else Fetched(rest.doc, here + rest.trace, rest.sent + 1);
      sent := sent + 1;
      if IsOk(o) {
        doc := Some(o.doc);
        trace := trace + here;
        return;
      }
      assert trace + Retry(p, maxRetries, outs, attempt).trace == (trace + here) + rest.trace;
      trace := trace + here;
      attempt := attempt + 1;
    }
  }
}
