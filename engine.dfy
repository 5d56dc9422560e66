/** The crawl engine as a state machine on values: one `crawl_step` is a
    function from state to state, and the invariants of a run are predicates
    over the state together with the entries dequeued so far. */
module Engine {
  import opened Web
  import opened Extraction
  import opened Links

  /** What a crawler is constructed with: the seed, the host of the seed
      (`urlparse(start_url).netloc`), the depth limit, the selector ruleset,
      the web it crawls, the host-of function, and whether a callback was
      given. */
  datatype Config = Config(startUrl: Url, baseDomain: string, maxDepth: int, rules: Rules,
                           web: Url -> Fetch, netloc: Url -> string, observed: bool)

  datatype Stats = Stats(scanned: nat, productsFound: nat, errors: nat)

  /** The callback's three kinds of call, in the order they are made. */
  datatype Event = Status(message: string) | Data(record: Record) | Done(stats: Stats)

  /** The crawler's mutable fields, and the events its callback has received. */
  datatype State = State(queue: seq<Entry>, visited: set<Url>, results: seq<Record>,
                         stats: Stats, running: bool, events: seq<Event>)

  /** The state `__init__` leaves: the seed alone in the queue and in
      `visited`, nothing found, all counters zero, not running. */
  function Initial(cfg: Config): State {
    State([Entry(cfg.startUrl, 0)], {cfg.startUrl}, [], Stats(0, 0, 0), false, [])
  }

  const MessageWidth: nat := 60

  /** The status line: the URL cut to its first 60 characters. */
  function ScanMessage(url: Url): string {
    "Scanning: " + (if |url| <= MessageWidth then url else url[..MessageWidth]) + "..."
  }

  /** The events a callback receives: none when no callback was given. */
  function Log(cfg: Config, evs: seq<Event>): seq<Event> {
    if cfg.observed then evs else []
  }

  /** The `except` clause: the error counter goes up by one. */
  function Failed(s: State): State {
    s.(stats := s.stats.(errors := s.stats.errors + 1))
  }

  /** Counting the scan and reporting the status line. */
  function Scan(cfg: Config, s: State, e: Entry): State {
    s.(stats := s.stats.(scanned := s.stats.scanned + 1),
       events := s.events + Log(cfg, [Status(ScanMessage(e.url))]))
  }

  /** Keeping, counting and reporting the page's record, if it has one. */
  function Collect(cfg: Config, s: State, product: Option<Record>): State {
    match product
    case None => s
    case Some(rec) =>
      s.(results := s.results + [rec],
         stats := s.stats.(productsFound := s.stats.productsFound + 1),
         events := s.events + Log(cfg, [Data(rec)]))
  }

  /** Following the page's links; an unresolvable anchor raises, which the
      `except` clause counts. */
  function Follow(cfg: Config, s: State, anchors: seq<Anchor>, depth: int): State {
    var d := Discover(cfg.netloc, cfg.baseDomain, anchors, depth, s.visited, s.queue);
    var s1 := s.(visited := d.visited, queue := d.queue);
    if d.raised then Failed(s1) else s1
  }

  /** The `try` block of `crawl_step` for an entry within the depth limit. */
  function Process(cfg: Config, s: State, e: Entry): State {
    var s1 := Scan(cfg, s, e);
    match cfg.web(e.url)
    case Raised => Failed(s1)
    case Response(code, content) =>
      if code != 200 then s1
      else match content
        case Unparsable => Failed(s1)
        case Html(doc, anchors) =>
          var s2 := Collect(cfg, s1, Extract(doc, cfg.rules, e.url));
          if e.depth < cfg.maxDepth then Follow(cfg, s2, anchors, e.depth + 1) else s2
  }

  /** `crawl_step`: the new state, and whether the step did anything. */
  function Step(cfg: Config, s: State): (State, bool) {
    if s.queue == [] || !s.running then (s, false)
    else
      var e := s.queue[0];
      var s1 := s.(queue := s.queue[1..]);
      if e.depth > cfg.maxDepth then (s1, true)
      else (Process(cfg, s1, e), true)
  }

  /** `n` consecutive steps. */
  function Steps(cfg: Config, s: State, n: nat): State
    decreases n
  {
    if n == 0 then s else Steps(cfg, Step(cfg, s).0, n - 1)
  }

  /** `stop()`. */
  function Stop(s: State): State {
    s.(running := false)
  }

  /** The observer's `stop()`, landing once `n` iterations of `start()`'s
      loop are done, when `n` is the number it is due after. */
  function Interrupt(s: State, stopAfter: Option<nat>, n: nat): State {
    if stopAfter == Some(n) then Stop(s) else s
  }

  /** The test of `start()`'s loop: still running, and the queue non-empty. */
  predicate Continues(s: State) {
    s.running && s.queue != []
  }

  /** `n` iterations of `start()`'s loop: the state they leave, and whether
      the loop's test held before each of them. */
  datatype Trace = Trace(state: State, held: bool)

  /** `n` iterations of `start()`'s loop from `s`: each iteration is one
      `crawl_step`, and the stop lands after iteration `stopAfter`, if ever. */
  function Iterations(cfg: Config, s: State, stopAfter: Option<nat>, n: nat): Trace
    decreases n
  {
    if n == 0 then Trace(Interrupt(s, stopAfter, 0), true)
    else
      var t := Iterations(cfg, s, stopAfter, n - 1);
      Trace(Interrupt(Step(cfg, t.state).0, stopAfter, n), t.held && Continues(t.state))
  }

  /** The state after `n` iterations of `start()`'s loop from `s`. */
  function Run(cfg: Config, s: State, stopAfter: Option<nat>, n: nat): State {
    Iterations(cfg, s, stopAfter, n).state
  }

  /** The loop's test held before each of the first `n` iterations: the loop
      does perform them all. */
  predicate Held(cfg: Config, s: State, stopAfter: Option<nat>, n: nat) {
    Iterations(cfg, s, stopAfter, n).held
  }

  // ---------------------------------------------------------------------------
  // What a run keeps true

  /** The anchors the crawler would follow on a page: those of a 200 page that
      parses, none otherwise. */
  function PageAnchors(cfg: Config, url: Url): seq<Anchor> {
    match cfg.web(url)
    case Response(code, Html(_, anchors)) => if code == 200 then anchors else []
    case _ => []
  }

  ghost function LinksFrom(cfg: Config, pages: set<Url>): set<Url> {
    set u, a | u in pages && a in PageAnchors(cfg, u) && a.Link? :: a.url
  }

  /** The URLs at most `k` links away from the seed. Finite, whatever the web. */
  ghost function Reach(cfg: Config, k: nat): set<Url> {
    if k == 0 then {cfg.startUrl}
    else Reach(cfg, k - 1) + LinksFrom(cfg, Reach(cfg, k - 1))
  }

  /** The deepest level an entry can have: the depth limit, or 0 for the
      seed when the limit is negative. */
  function Bound(cfg: Config): nat {
    if cfg.maxDepth < 0 then 0 else cfg.maxDepth
  }

  predicate DepthOrdered(es: seq<Entry>) {
    forall i, j :: 0 <= i < j < |es| ==> es[i].depth <= es[j].depth
  }

  /** The queue spans at most two consecutive levels. */
  predicate Spread(queue: seq<Entry>) {
    queue != [] ==> queue[|queue| - 1].depth <= queue[0].depth + 1
  }

  /** What every discovered (non-seed) entry satisfies. */
  predicate Admitted(cfg: Config, e: Entry) {
    1 <= e.depth <= cfg.maxDepth && Passes(cfg.netloc, cfg.baseDomain, e.url)
  }

  ghost predicate Reached(cfg: Config, e: Entry) {
    e.depth >= 0 && e.url in Reach(cfg, e.depth)
  }

  /** The trail is every entry ever enqueued, in enqueue order: the seed
      first, no URL twice, exactly the visited set, depths non-decreasing,
      every discovered entry admitted and every entry within reach. */
  ghost predicate TrailInv(cfg: Config, trail: seq<Entry>, visited: set<Url>) {
    && |trail| > 0 && trail[0] == Entry(cfg.startUrl, 0)
    && DistinctUrls(trail)
    && visited == UrlsOf(trail)
    && DepthOrdered(trail)
    && (forall i :: 0 < i < |trail| ==> Admitted(cfg, trail[i]))
    && (forall i :: 0 <= i < |trail| ==> Reached(cfg, trail[i]))
  }

  function DataOf(events: seq<Event>): seq<Record> {
    if events == [] then []
    else DataOf(events[..|events| - 1]) + (if events[|events| - 1].Data? then [events[|events| - 1].record] else [])
  }

  function StatusCount(events: seq<Event>): nat {
    if events == [] then 0
    else StatusCount(events[..|events| - 1]) + (if events[|events| - 1].Status? then 1 else 0)
  }

  function DoneCount(events: seq<Event>): nat {
    if events == [] then 0
    else DoneCount(events[..|events| - 1]) + (if events[|events| - 1].Done? then 1 else 0)
  }

  /** `len(results) == products_found <= scanned`, `errors <= scanned`, and
      at most one scan per dequeued entry. */
  predicate CountersAgree(s: State, dequeued: nat) {
    && |s.results| == s.stats.productsFound <= s.stats.scanned
    && s.stats.errors <= s.stats.scanned
    && s.stats.scanned <= dequeued
  }

  /** The callback has seen one status per scan and one data event per
      result, in result order (and nothing when there is no callback). */
  predicate EventsAgree(cfg: Config, s: State) {
    if cfg.observed then DataOf(s.events) == s.results && StatusCount(s.events) == s.stats.scanned
    else s.events == []
  }

  /** The run invariant, given the entries `hist` dequeued so far. */
  ghost predicate RunInv(cfg: Config, s: State, hist: seq<Entry>) {
    && TrailInv(cfg, hist + s.queue, s.visited)
    && Spread(s.queue)
    && CountersAgree(s, |hist|)
    && EventsAgree(cfg, s)
    && Keyed(s.results)
  }

  /** Every record carries the key "url". */
  predicate Keyed(results: seq<Record>) {
    forall i :: 0 <= i < |results| ==> UrlKey in Keys(results[i])
  }

  // ---------------------------------------------------------------------------
  // Lemmas

  lemma {:induction false} LogAppend(a: seq<Event>, b: seq<Event>)
    ensures DataOf(a + b) == DataOf(a) + DataOf(b)
    ensures StatusCount(a + b) == StatusCount(a) + StatusCount(b)
    ensures DoneCount(a + b) == DoneCount(a) + DoneCount(b)
  {
    if b != [] {
      var b' := b[..|b| - 1];
      LogAppend(a, b');
      assert (a + b)[..|a + b| - 1] == a + b';
      assert (a + b)[|a + b| - 1] == b[|b| - 1];
    } else {
      assert a + b == a;
    }
  }

  /** The run invariant holds of a freshly constructed crawler. */
  lemma InitialInv(cfg: Config)
    ensures RunInv(cfg, Initial(cfg), [])
  {
    var trail := [] + Initial(cfg).queue;
    assert trail == [Entry(cfg.startUrl, 0)];
    assert UrlsOf(trail) == {cfg.startUrl};
  }

  lemma {:induction false} ReachMono(cfg: Config, j: nat, k: nat)
    requires j <= k
    ensures Reach(cfg, j) <= Reach(cfg, k)
    decreases k - j
  {
    if j < k {
      ReachGrows(cfg, j + 1);
      ReachMono(cfg, j + 1, k);
    }
  }

  lemma ReachGrows(cfg: Config, k: nat)
    requires k > 0
    ensures Reach(cfg, k - 1) <= Reach(cfg, k)
  {
    var prev := Reach(cfg, k - 1);
    assert Reach(cfg, k) == prev + LinksFrom(cfg, prev);
  }

  /** Everything visited lies within `Bound(cfg)` links of the seed. */
  lemma VisitedBounded(cfg: Config, s: State, hist: seq<Entry>)
    requires RunInv(cfg, s, hist)
    ensures s.visited <= Reach(cfg, Bound(cfg))
  {
    var trail := hist + s.queue;
    forall u | u in s.visited ensures u in Reach(cfg, Bound(cfg)) {
      var e :| e in trail && e.url == u;
      var i :| 0 <= i < |trail| && trail[i] == e;
      assert Reached(cfg, trail[i]);
      if i > 0 {
        assert Admitted(cfg, trail[i]);
      }
      ReachMono(cfg, e.depth, Bound(cfg));
    }
  }

  /** The record a page yields: that of a 200 page that parses, if any. */
  function PageRecord(cfg: Config, url: Url): Option<Record> {
    match cfg.web(url)
    case Response(code, Html(doc, _)) => if code == 200 then Extract(doc, cfg.rules, url) else None
    case _ => None
  }

  function DataEvents(found: seq<Record>): seq<Event> {
    seq(|found|, i requires 0 <= i < |found| => Data(found[i]))
  }

  function AsSeq<T>(o: Option<T>): seq<T> {
    match o
    case Some(v) => [v]
    case None => []
  }

  /** The frontier part of the `try` block: it only appends to the queue, and
      only entries one level below `e`, on the seed's host, not denied, not
      visited before, linked from `e`'s page before its first anchor that
      raises, and each once; `visited` grows by exactly those. */
  lemma ProcessFrontier(cfg: Config, s: State, e: Entry)
    ensures |s.queue| <= |Process(cfg, s, e).queue|
    ensures var s' := Process(cfg, s, e);
      var added := s'.queue[|s.queue|..];
      && s'.queue == s.queue + added
      && (forall x :: x in added ==>
            x.depth == e.depth + 1 && e.depth < cfg.maxDepth && Passes(cfg.netloc, cfg.baseDomain, x.url)
            && x.url !in s.visited && Link(x.url) in PageAnchors(cfg, e.url)
            && FromResolved(PageAnchors(cfg, e.url), x.url))
      && DistinctUrls(added)
      && s'.visited == s.visited + UrlsOf(added)
  {
    if cfg.web(e.url).Response? && cfg.web(e.url).status == 200 && cfg.web(e.url).content.Html?
       && e.depth < cfg.maxDepth {
      var page := cfg.web(e.url).content;
      var s2 := Collect(cfg, Scan(cfg, s, e), Extract(page.doc, cfg.rules, e.url));
      assert Process(cfg, s, e) == Follow(cfg, s2, page.anchors, e.depth + 1);
      assert PageAnchors(cfg, e.url) == page.anchors;
      FollowFrontier(cfg, s2, page.anchors, e.depth + 1);
    } else {
      NoFollow(cfg, s, e);
    }
  }

  /** A page that is not followed leaves the frontier alone. */
  lemma NoFollow(cfg: Config, s: State, e: Entry)
    requires !(cfg.web(e.url).Response? && cfg.web(e.url).status == 200 && cfg.web(e.url).content.Html?
               && e.depth < cfg.maxDepth)
    ensures Process(cfg, s, e).queue == s.queue && Process(cfg, s, e).visited == s.visited
  {
  }

  /** Following links only appends entries at `depth` that pass the filter,
      were not visited, come from anchors before the first one that raises,
      and appear once. */
  lemma FollowFrontier(cfg: Config, s: State, anchors: seq<Anchor>, depth: int)
    ensures |s.queue| <= |Follow(cfg, s, anchors, depth).queue|
    ensures var s' := Follow(cfg, s, anchors, depth);
      var added := s'.queue[|s.queue|..];
      && s'.queue == s.queue + added
      && (forall x :: x in added ==>
            x.depth == depth && Passes(cfg.netloc, cfg.baseDomain, x.url)
            && x.url !in s.visited && Link(x.url) in anchors && FromResolved(anchors, x.url))
      && DistinctUrls(added)
      && s'.visited == s.visited + UrlsOf(added)
  {
    DiscoverAppends(cfg.netloc, cfg.baseDomain, anchors, depth, s.visited, s.queue);
  }

  /** Following links touches only the frontier and the error counter, which
      goes up by one exactly when some anchor cannot be resolved. */
  lemma FollowCounts(cfg: Config, s: State, anchors: seq<Anchor>, depth: int)
    ensures var s' := Follow(cfg, s, anchors, depth);
      && s'.results == s.results && s'.events == s.events && s'.running == s.running
      && s'.stats.scanned == s.stats.scanned && s'.stats.productsFound == s.stats.productsFound
      && s'.stats.errors
         == s.stats.errors + (if exists k :: 0 <= k < |anchors| && anchors[k].Unresolvable? then 1 else 0)
  {
    DiscoverComplete(cfg.netloc, cfg.baseDomain, anchors, depth, s.visited, s.queue);
  }

  /** The counting part of the `try` block: one scan is counted, the page's
      record (if any) is kept and counted, at most one error is counted, and
      the callback sees the status line and then the record. */
  lemma ProcessCounts(cfg: Config, s: State, e: Entry)
    ensures var s' := Process(cfg, s, e);
      var found := AsSeq(PageRecord(cfg, e.url));
      && s'.stats.scanned == s.stats.scanned + 1
      && s'.results == s.results + found
      && s'.stats.productsFound == s.stats.productsFound + |found|
      && s.stats.errors <= s'.stats.errors <= s.stats.errors + 1
      && s'.running == s.running
      && s'.events == s.events + Log(cfg, [Status(ScanMessage(e.url))] + DataEvents(found))
  {
    match cfg.web(e.url)
    case Raised =>
      assert [Status(ScanMessage(e.url))] + DataEvents([]) == [Status(ScanMessage(e.url))];
    case Response(code, content) =>
      if code != 200 || content.Unparsable? {
        assert PageRecord(cfg, e.url) == None;
        assert [Status(ScanMessage(e.url))] + DataEvents([]) == [Status(ScanMessage(e.url))];
      } else {
        PageCounts(cfg, s, e, content.doc, content.anchors);
      }
  }

  /** `ProcessCounts` for a 200 page that parsed. */
  lemma PageCounts(cfg: Config, s: State, e: Entry, doc: Document, anchors: seq<Anchor>)
    requires cfg.web(e.url) == Response(200, Html(doc, anchors))
    ensures var s' := Process(cfg, s, e);
      var found := AsSeq(PageRecord(cfg, e.url));
      && s'.stats.scanned == s.stats.scanned + 1
      && s'.results == s.results + found
      && s'.stats.productsFound == s.stats.productsFound + |found|
      && s.stats.errors <= s'.stats.errors <= s.stats.errors + 1
      && s'.running == s.running
      && s'.events == s.events + Log(cfg, [Status(ScanMessage(e.url))] + DataEvents(found))
  {
    var product := Extract(doc, cfg.rules, e.url);
    var s2 := Collect(cfg, Scan(cfg, s, e), product);
    var s' := if e.depth < cfg.maxDepth then Follow(cfg, s2, anchors, e.depth + 1) else s2;
    assert Process(cfg, s, e) == s';
    assert PageRecord(cfg, e.url) == product;
    FollowCounts(cfg, s2, anchors, e.depth + 1);
    match product
    case None =>
      assert [Status(ScanMessage(e.url))] + DataEvents([]) == [Status(ScanMessage(e.url))];
    case Some(r) =>
      assert [Status(ScanMessage(e.url))] + DataEvents([r]) == [Status(ScanMessage(e.url))] + [Data(r)];
  }

  /** A link of a page within reach `k` is within reach `k + 1`. */
  lemma ReachStep(cfg: Config, parent: Entry, link: Url)
    requires Reached(cfg, parent)
    requires Link(link) in PageAnchors(cfg, parent.url)
    ensures link in Reach(cfg, parent.depth + 1)
  {
    assert link in LinksFrom(cfg, Reach(cfg, parent.depth));
  }

  /** Appending the entries a processed page yields keeps the trail invariant. */
  lemma TrailGrows(cfg: Config, trail: seq<Entry>, visited: set<Url>, added: seq<Entry>, parent: Entry)
    requires TrailInv(cfg, trail, visited)
    requires Reached(cfg, parent)
    requires forall x :: x in trail ==> x.depth <= parent.depth + 1
    requires forall x :: x in added ==>
      x.depth == parent.depth + 1 && parent.depth < cfg.maxDepth && Passes(cfg.netloc, cfg.baseDomain, x.url)
      && x.url !in visited && Link(x.url) in PageAnchors(cfg, parent.url)
    requires DistinctUrls(added)
    ensures TrailInv(cfg, trail + added, visited + UrlsOf(added))
  {
    var t := trail + added;
    AddedAdmitted(cfg, trail, added, parent);
    AddedDistinctOrdered(trail, added, parent.depth + 1);
    UrlsOfAppend(trail, added);
    assert t[0] == trail[0];
  }

  lemma AddedAdmitted(cfg: Config, trail: seq<Entry>, added: seq<Entry>, parent: Entry)
    requires |trail| > 0
    requires forall i :: 0 < i < |trail| ==> Admitted(cfg, trail[i])
    requires forall i :: 0 <= i < |trail| ==> Reached(cfg, trail[i])
    requires Reached(cfg, parent)
    requires forall x :: x in added ==>
      x.depth == parent.depth + 1 && parent.depth < cfg.maxDepth && Passes(cfg.netloc, cfg.baseDomain, x.url)
      && Link(x.url) in PageAnchors(cfg, parent.url)
    ensures var t := trail + added;
      (forall i :: 0 < i < |t| ==> Admitted(cfg, t[i])) && (forall i :: 0 <= i < |t| ==> Reached(cfg, t[i]))
  {
    var t := trail + added;
    forall i | 0 <= i < |t| ensures (i > 0 ==> Admitted(cfg, t[i])) && Reached(cfg, t[i]) {
      if i < |trail| {
        assert t[i] == trail[i];
      } else {
        assert t[i] in added;
        ReachStep(cfg, parent, t[i].url);
      }
    }
  }

  lemma AddedDistinctOrdered(trail: seq<Entry>, added: seq<Entry>, depth: int)
    requires DistinctUrls(trail) && DepthOrdered(trail) && DistinctUrls(added)
    requires forall x :: x in trail ==> x.depth <= depth
    requires forall x :: x in added ==> x.depth == depth && x.url !in UrlsOf(trail)
    ensures DistinctUrls(trail + added) && DepthOrdered(trail + added)
  {
    var t := trail + added;
    forall i, j | 0 <= i < j < |t| ensures t[i].url != t[j].url && t[i].depth <= t[j].depth {
      if j >= |trail| {
        assert t[j] == added[j - |trail|];
        assert t[j] in added;
        if i < |trail| {
          assert t[i] == trail[i];
          assert t[i] in trail;
          assert t[i].url in UrlsOf(trail);
        } else {
          assert t[i] == added[i - |trail|];
        }
      } else {
        assert t[i] == trail[i] && t[j] == trail[j];
      }
    }
  }

  lemma UrlsOfAppend(a: seq<Entry>, b: seq<Entry>)
    ensures UrlsOf(a + b) == UrlsOf(a) + UrlsOf(b)
  {
    forall u | u in UrlsOf(a + b) ensures u in UrlsOf(a) + UrlsOf(b) {
      var x :| x in a + b && x.url == u;
    }
  }

  /** Every entry of the trail is at most one level deeper than the front of
      the queue. */
  lemma TrailBelowFront(cfg: Config, s: State, hist: seq<Entry>)
    requires RunInv(cfg, s, hist)
    requires s.queue != []
    ensures forall x :: x in hist + s.queue ==> x.depth <= s.queue[0].depth + 1
  {
    BelowFront(hist, s.queue);
  }

  lemma BelowFront(hist: seq<Entry>, q: seq<Entry>)
    requires q != [] && DepthOrdered(hist + q) && Spread(q)
    ensures forall x :: x in hist + q ==> x.depth <= q[0].depth + 1
  {
    var trail := hist + q;
    forall x | x in trail ensures x.depth <= q[0].depth + 1 {
      var i :| 0 <= i < |trail| && trail[i] == x;
      if i < |hist| {
        assert trail[|hist|] == q[0];
      } else {
        assert trail[i] == q[i - |hist|];
        assert trail[|hist| + |q| - 1] == q[|q| - 1];
      }
    }
  }

  lemma PopPush(hist: seq<Entry>, q: seq<Entry>, added: seq<Entry>)
    requires q != []
    ensures hist + [q[0]] + (q[1..] + added) == (hist + q) + added
  {
    assert q == [q[0]] + q[1..];
  }

  /** The frontier half of the run invariant survives a step. */
  lemma StepKeepsTrail(cfg: Config, s: State, hist: seq<Entry>)
    requires RunInv(cfg, s, hist)
    requires s.queue != [] && s.running
    ensures var s' := Step(cfg, s).0;
      TrailInv(cfg, hist + [s.queue[0]] + s'.queue, s'.visited) && Spread(s'.queue)
  {
    var q := s.queue;
    var e := q[0];
    var s1 := s.(queue := q[1..]);
    var trail := hist + q;
    assert DepthOrdered(q) by {
      OrderedSuffix(hist, q);
    }
    if e.depth <= cfg.maxDepth {
      var s' := Process(cfg, s1, e);
      assert Step(cfg, s).0 == s';
      ProcessFrontier(cfg, s1, e);
      var added := s'.queue[|s1.queue|..];
      assert s'.queue == q[1..] + added;
      assert TrailInv(cfg, trail + added, s'.visited) by {
        TrailBelowFront(cfg, s, hist);
        assert trail[|hist|] == e;
        TrailGrows(cfg, trail, s.visited, added, e);
      }
      assert hist + [e] + s'.queue == trail + added by {
        PopPush(hist, q, added);
      }
      SpreadAfter(q, added);
    } else {
      assert Step(cfg, s).0 == s1;
      assert hist + [e] + q[1..] == trail;
      SpreadAfter(q, []);
      assert q[1..] + [] == q[1..];
    }
  }

  lemma OrderedSuffix(hist: seq<Entry>, q: seq<Entry>)
    requires DepthOrdered(hist + q)
    ensures DepthOrdered(q)
  {
    forall i, j | 0 <= i < j < |q| ensures q[i].depth <= q[j].depth {
      assert q[i] == (hist + q)[|hist| + i] && q[j] == (hist + q)[|hist| + j];
    }
  }

  /** Popping the front of an ordered queue that spans two levels and
      appending entries one level below the popped one keeps the span. */
  lemma SpreadAfter(q: seq<Entry>, added: seq<Entry>)
    requires q != [] && DepthOrdered(q) && Spread(q)
    requires forall x :: x in added ==> x.depth == q[0].depth + 1
    ensures Spread(q[1..] + added)
  {
    var r := q[1..] + added;
    if r != [] {
      if |q| > 1 {
        assert r[0] == q[1];
        if added == [] {
          assert r[|r| - 1] == q[|q| - 1];
        } else {
          assert r[|r| - 1] == added[|added| - 1];
          assert added[|added| - 1] in added;
        }
      } else {
        assert r == added;
        assert r[0] in added && r[|r| - 1] in added;
      }
    }
  }

  /** The counting half of the run invariant survives a step. */
  lemma StepKeepsCounts(cfg: Config, s: State, hist: seq<Entry>)
    requires CountersAgree(s, |hist|) && EventsAgree(cfg, s)
    requires s.queue != [] && s.running
    ensures var s' := Step(cfg, s).0;
      CountersAgree(s', |hist| + 1) && EventsAgree(cfg, s')
  {
    var e := s.queue[0];
    var s1 := s.(queue := s.queue[1..]);
    if e.depth <= cfg.maxDepth {
      var s' := Process(cfg, s1, e);
      assert Step(cfg, s).0 == s';
      ProcessCounts(cfg, s1, e);
      var found := AsSeq(PageRecord(cfg, e.url));
      var reported := [Status(ScanMessage(e.url))] + DataEvents(found);
      if cfg.observed {
        assert s'.events == s.events + reported;
        LogAppend(s.events, reported);
        Reported(ScanMessage(e.url), PageRecord(cfg, e.url));
      }
    }
  }

  /** The events of one processed page: one status line and the page's
      record, if any. */
  lemma Reported(message: string, product: Option<Record>)
    ensures var reported := [Status(message)] + DataEvents(AsSeq(product));
      && DataOf(reported) == AsSeq(product) && StatusCount(reported) == 1 && DoneCount(reported) == 0
  {
    match product
    case None =>
      assert [Status(message)] + DataEvents([]) == [Status(message)];
      assert [Status(message)][..0] == [];
    case Some(r) =>
      var reported := [Status(message)] + DataEvents([r]);
      assert reported == [Status(message)] + [Data(r)];
      LogAppend([Status(message)], [Data(r)]);
      assert [Status(message)][..0] == [];
      assert [Data(r)][..0] == [];
  }

  /** Every step keeps the run invariant, with the dequeued entry (if any)
      added to the history. */
  lemma StepPreservesInv(cfg: Config, s: State, hist: seq<Entry>)
    requires RunInv(cfg, s, hist)
    ensures var (s', progressed) := Step(cfg, s);
      RunInv(cfg, s', if progressed then hist + [s.queue[0]] else hist)
  {
    if s.queue != [] && s.running {
      StepKeepsTrail(cfg, s, hist);
      StepKeepsCounts(cfg, s, hist);
      StepKeepsKeyed(cfg, s);
      assert hist + [s.queue[0]] + Step(cfg, s).0.queue == (hist + [s.queue[0]]) + Step(cfg, s).0.queue;
    }
  }

  /** A step adds only records `extract_data` built, which carry "url". */
  lemma StepKeepsKeyed(cfg: Config, s: State)
    requires Keyed(s.results)
    requires s.queue != [] && s.running
    ensures Keyed(Step(cfg, s).0.results)
  {
    var e := s.queue[0];
    if e.depth <= cfg.maxDepth {
      var s1 := s.(queue := s.queue[1..]);
      assert Step(cfg, s).0 == Process(cfg, s1, e);
      ProcessCounts(cfg, s1, e);
      match cfg.web(e.url)
      case Response(code, Html(doc, _)) =>
        ExtractKeys(doc, cfg.rules, e.url);
      case _ =>
    }
  }

  /** A step that does something either enlarges `visited` or shortens the
      queue; so a run ends, since `visited` cannot leave the reach bound. */
  lemma StepShrinks(cfg: Config, s: State, hist: seq<Entry>)
    requires RunInv(cfg, s, hist)
    requires s.queue != [] && s.running
    ensures var s' := Step(cfg, s).0;
      && s.visited <= s'.visited <= Reach(cfg, Bound(cfg))
      && (s'.visited == s.visited ==> |s'.queue| < |s.queue|)
  {
    var e := s.queue[0];
    var s1 := s.(queue := s.queue[1..]);
    StepPreservesInv(cfg, s, hist);
    VisitedBounded(cfg, Step(cfg, s).0, hist + [e]);
    if e.depth <= cfg.maxDepth {
      ProcessFrontier(cfg, s1, e);
      var s' := Process(cfg, s1, e);
      var added := s'.queue[|s1.queue|..];
      if added != [] {
        assert added[0] in added;
        assert added[0].url in s'.visited - s.visited;
      }
    }
  }

  /** What the callback sees of one step: nothing, unless an entry within the
      limit was processed; then its status line, followed by its record if
      it has one. A step never reports `done`. */
  lemma StepEvents(cfg: Config, s: State)
    ensures var (s', progressed) := Step(cfg, s);
      var processed := progressed && s.queue[0].depth <= cfg.maxDepth;
      && s'.events == s.events + Log(cfg, if processed
           then [Status(ScanMessage(s.queue[0].url))] + DataEvents(AsSeq(PageRecord(cfg, s.queue[0].url)))
           else [])
      && DoneCount(s'.events) == DoneCount(s.events)
  {
    if s.queue != [] && s.running && s.queue[0].depth <= cfg.maxDepth {
      var e := s.queue[0];
      ProcessCounts(cfg, s.(queue := s.queue[1..]), e);
      var reported := [Status(ScanMessage(e.url))] + DataEvents(AsSeq(PageRecord(cfg, e.url)));
      LogAppend(s.events, Log(cfg, reported));
      LogAppend([Status(ScanMessage(e.url))], DataEvents(AsSeq(PageRecord(cfg, e.url))));
      assert DoneCount([Status(ScanMessage(e.url))]) == 0;
      if PageRecord(cfg, e.url).Some? {
        assert DataEvents(AsSeq(PageRecord(cfg, e.url))) == [Data(PageRecord(cfg, e.url).value)];
      } else {
        assert DataEvents(AsSeq(PageRecord(cfg, e.url))) == [];
      }
    } else {
      assert s.events + Log(cfg, []) == s.events;
    }
  }

  /** Nothing the crawler accumulates is lost from `s0` to `s`: `visited`
      only grows, `results` and the event log only get longer, the counters
      never decrease, and no `done` event is added. */
  predicate Grows(s0: State, s: State) {
    && s0.visited <= s.visited
    && |s0.results| <= |s.results| && s.results[..|s0.results|] == s0.results
    && s0.stats.scanned <= s.stats.scanned && s0.stats.productsFound <= s.stats.productsFound
    && s0.stats.errors <= s.stats.errors
    && |s0.events| <= |s.events| && s.events[..|s0.events|] == s0.events
    && DoneCount(s.events) == DoneCount(s0.events)
  }

  lemma GrowsTrans(s0: State, s1: State, s2: State)
    requires Grows(s0, s1) && Grows(s1, s2)
    ensures Grows(s0, s2)
  {
    assert s2.results[..|s0.results|] == s2.results[..|s1.results|][..|s0.results|];
    assert s2.events[..|s0.events|] == s2.events[..|s1.events|][..|s0.events|];
  }

  /** Every step only accumulates. */
  lemma StepGrows(cfg: Config, s: State)
    ensures Grows(s, Step(cfg, s).0)
  {
    StepCounters(cfg, s);
    StepEvents(cfg, s);
  }

  /** The run invariant does not depend on the running flag. */
  lemma RunInvIgnoresRunning(cfg: Config, s: State, hist: seq<Entry>, running: bool)
    requires RunInv(cfg, s, hist)
    ensures RunInv(cfg, s.(running := running), hist)
  {
    assert s.(running := running).queue == s.queue;
  }

  /** An idle or exhausted crawler's step does nothing and reports so. */
  lemma StepNoOp(cfg: Config, s: State)
    requires !s.running || s.queue == []
    ensures Step(cfg, s) == (s, false)
  {
  }

  /** A stopped crawler stays exactly as it is, however many steps are taken. */
  lemma {:induction false} StoppedStaysPut(cfg: Config, s: State, n: nat)
    requires !s.running
    ensures Steps(cfg, s, n) == s
  {
    if n > 0 {
      StoppedStaysPut(cfg, s, n - 1);
    }
  }

  /** `stop()` is idempotent and leaves all other state alone. */
  lemma StopIdempotent(s: State)
    ensures Stop(Stop(s)) == Stop(s)
    ensures Stop(s).(running := s.running) == s
  {
  }

  /** An entry deeper than the limit is dropped: the step reports progress,
      but nothing is scanned, fetched, found, counted or reported. */
  lemma TooDeepSkipped(cfg: Config, s: State)
    requires s.running && s.queue != [] && s.queue[0].depth > cfg.maxDepth
    ensures Step(cfg, s) == (s.(queue := s.queue[1..]), true)
  {
  }

  /** The counters never decrease; a step that does something scans at most
      once, and finds and fails at most once each; `results` only grows, by
      exactly the newly found records. */
  lemma StepCounters(cfg: Config, s: State)
    ensures var (s', progressed) := Step(cfg, s);
      && s.stats.scanned <= s'.stats.scanned <= s.stats.scanned + (if progressed then 1 else 0)
      && s.stats.productsFound <= s'.stats.productsFound <= s.stats.productsFound + 1
      && s.stats.errors <= s'.stats.errors <= s.stats.errors + 1
      && |s.results| <= |s'.results| && s'.results[..|s.results|] == s.results
      && |s'.results| - |s.results| == s'.stats.productsFound - s.stats.productsFound
      && s.visited <= s'.visited
      && s'.running == s.running
      && (s'.stats.scanned == s.stats.scanned ==> s'.stats == s.stats && s'.results == s.results && s'.events == s.events)
  {
    if s.queue != [] && s.running && s.queue[0].depth <= cfg.maxDepth {
      ProcessFrontier(cfg, s.(queue := s.queue[1..]), s.queue[0]);
      ProcessCounts(cfg, s.(queue := s.queue[1..]), s.queue[0]);
    }
  }

  /** A page whose response is not 200 yields no record, no links and no
      error; only the scan is counted and the queue loses its front. */
  lemma NonOkPageInert(cfg: Config, s: State)
    requires s.running && s.queue != [] && s.queue[0].depth <= cfg.maxDepth
    requires cfg.web(s.queue[0].url).Response? && cfg.web(s.queue[0].url).status != 200
    ensures var s' := Step(cfg, s).0;
      && s'.queue == s.queue[1..] && s'.visited == s.visited && s'.results == s.results
      && s'.stats == s.stats.(scanned := s.stats.scanned + 1)
  {
  }

  /** A fetch or parse failure is counted as exactly one error, next to its
      scan, and the step still reports progress. */
  lemma FailureCounted(cfg: Config, s: State)
    requires s.running && s.queue != [] && s.queue[0].depth <= cfg.maxDepth
    requires var f := cfg.web(s.queue[0].url); f.Raised? || (f.status == 200 && f.content.Unparsable?)
    ensures var (s', progressed) := Step(cfg, s);
      && progressed
      && s'.stats == Stats(s.stats.scanned + 1, s.stats.productsFound, s.stats.errors + 1)
      && s'.queue == s.queue[1..] && s'.results == s.results
  {
  }

  /** Stepping once more after `n` steps. */
  lemma {:induction false} StepsLast(cfg: Config, s: State, n: nat)
    ensures Steps(cfg, s, n + 1) == Step(cfg, Steps(cfg, s, n)).0
    decreases n
  {
    if n > 0 {
      StepsLast(cfg, Step(cfg, s).0, n - 1);
    }
  }

  /** Without a stop, a run of `start()`'s loop is exactly `n` consecutive
      `crawl_step` calls. */
  lemma {:induction false} RunUnstopped(cfg: Config, s: State, n: nat)
    ensures Run(cfg, s, None, n) == Steps(cfg, s, n)
  {
    if n > 0 {
      RunUnstopped(cfg, s, n - 1);
      StepsLast(cfg, s, n - 1);
    }
  }

  /** A stop due after `k` iterations leaves the crawler as `k` steps left it,
      not running; no later iteration changes anything. */
  lemma {:induction false} RunStopped(cfg: Config, s: State, k: nat, n: nat)
    requires k <= n
    ensures Run(cfg, s, Some(k), n) == Stop(Steps(cfg, s, k))
  {
    if n == k {
      RunPrefix(cfg, s, k, k);
    } else {
      RunStopped(cfg, s, k, n - 1);
      StepNoOp(cfg, Run(cfg, s, Some(k), n - 1));
    }
  }

  /** Before the stop lands, a run is plain steps. */
  lemma {:induction false} RunPrefix(cfg: Config, s: State, k: nat, n: nat)
    requires n <= k
    ensures Run(cfg, s, Some(k), n) == Interrupt(Steps(cfg, s, n), Some(k), n)
  {
    if n > 0 {
      calc {
        Run(cfg, s, Some(k), n);
      == { RunNext(cfg, s, Some(k), n); }
        Interrupt(Step(cfg, Run(cfg, s, Some(k), n - 1)).0, Some(k), n);
      == { RunPrefix(cfg, s, k, n - 1); }
        Interrupt(Step(cfg, Steps(cfg, s, n - 1)).0, Some(k), n);
      == { StepsLast(cfg, s, n - 1); }
        Interrupt(Steps(cfg, s, n), Some(k), n);
      }
    }
  }

  /** Once its iteration is done, a stop has landed. */
  lemma StoppedAt(cfg: Config, s: State, k: nat)
    ensures !Run(cfg, s, Some(k), k).running
  {
  }

  lemma RunNext(cfg: Config, s: State, stopAfter: Option<nat>, n: nat)
    requires n > 0
    ensures Run(cfg, s, stopAfter, n) == Interrupt(Step(cfg, Run(cfg, s, stopAfter, n - 1)).0, stopAfter, n)
  {
  }

  /** A run that is still going after `n` iterations has not reached the
      iteration at which the observer stops it. */
  lemma RunBound(cfg: Config, s: State, k: nat, n: nat)
    requires n <= k && Run(cfg, s, Some(k), n).running
    ensures n < k
  {
    if n == k {
      StoppedAt(cfg, s, k);
    }
  }

  /** One more iteration of the loop extends the run by one. */
  lemma RunAdvance(cfg: Config, s: State, stopAfter: Option<nat>, n: nat, before: State, after: State)
    requires n > 0 && before == Run(cfg, s, stopAfter, n - 1)
    requires after == Interrupt(Step(cfg, before).0, stopAfter, n)
    ensures after == Run(cfg, s, stopAfter, n)
  {
    RunNext(cfg, s, stopAfter, n);
  }

  /** `Held` is what it says: the loop's test holds at every count below `n`. */
  lemma {:induction false} HeldAll(cfg: Config, s: State, stopAfter: Option<nat>, n: nat)
    ensures Held(cfg, s, stopAfter, n) <==> forall j :: 0 <= j < n ==> Continues(Run(cfg, s, stopAfter, j))
    decreases n
  {
    if n > 0 {
      HeldAll(cfg, s, stopAfter, n - 1);
      assert Held(cfg, s, stopAfter, n) == (Held(cfg, s, stopAfter, n - 1) && Continues(Run(cfg, s, stopAfter, n - 1)));
      if forall j :: 0 <= j < n ==> Continues(Run(cfg, s, stopAfter, j)) {
        assert Continues(Run(cfg, s, stopAfter, n - 1));
      }
    }
  }

  /** The number of iterations of `start()`'s loop is determined: it is the
      first count at which the loop's test fails. */
  lemma RunExitUnique(cfg: Config, s: State, stopAfter: Option<nat>, n1: nat, n2: nat)
    requires Held(cfg, s, stopAfter, n1) && !Continues(Run(cfg, s, stopAfter, n1))
    requires Held(cfg, s, stopAfter, n2) && !Continues(Run(cfg, s, stopAfter, n2))
    ensures n1 == n2
  {
    HeldAll(cfg, s, stopAfter, n1);
    HeldAll(cfg, s, stopAfter, n2);
  }

  /** Dequeuing one more entry keeps every earlier prefix of the history. */
  lemma PrefixKept(d0: seq<Entry>, hist: seq<Entry>, e: Entry)
    requires |d0| <= |hist| && hist[..|d0|] == d0
    ensures |d0| <= |hist + [e]| && (hist + [e])[..|d0|] == d0
  {
    assert (hist + [e])[..|d0|] == hist[..|d0|];
  }

  /** A run loses nothing either. */
  lemma {:induction false} RunGrows(cfg: Config, s: State, stopAfter: Option<nat>, n: nat)
    ensures Grows(s, Run(cfg, s, stopAfter, n))
  {
    if n > 0 {
      var prev := Run(cfg, s, stopAfter, n - 1);
      RunGrows(cfg, s, stopAfter, n - 1);
      StepGrows(cfg, prev);
      GrowsTrans(s, prev, Step(cfg, prev).0);
    }
  }
}
