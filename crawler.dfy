/** The crawler object (`RobustCrawler`): its fields are updated in place by
    `crawl_step`, `start` and `stop`, and each method is proved to do what
    the engine's state function says, keeping the run invariant. */
module Crawler {
  import opened Web
  import opened Extraction
  import opened Links
  import opened Engine

  class RobustCrawler {
    const startUrl: Url
    const baseDomain: string
    const maxDepth: int
    /** The selector ruleset loaded at construction (empty when the
        configuration file is missing). */
    const rules: Rules
    const web: Url -> Fetch
    const netloc: Url -> string
    /** Whether a callback was given. */
    const observed: bool

    var queue: seq<Entry>
    var visited: set<Url>
    var results: seq<Record>
    var stats: Stats
    var isRunning: bool
    /** The calls made to the callback so far. */
    var events: seq<Event>

    /** The entries dequeued so far, oldest first. */
    ghost var dequeued: seq<Entry>

    function Cfg(): Config {
      Config(startUrl, baseDomain, maxDepth, rules, web, netloc, observed)
    }

    function Snapshot(): Engine.State
      reads this
    {
      Engine.State(queue, visited, results, stats, isRunning, events)
    }

    ghost predicate Valid()
      reads this
    {
      baseDomain == netloc(startUrl) && RunInv(Cfg(), Snapshot(), dequeued)
    }

    /** `__init__`: the seed queued at depth 0 and visited, the base domain
        taken from the seed, no results, zero counters, not running. */
    constructor (startUrl: Url, maxDepth: int, rules: Rules, web: Url -> Fetch,
                 netloc: Url -> string, observed: bool)
      ensures Valid()
      ensures this.startUrl == startUrl && this.maxDepth == maxDepth && this.rules == rules
      ensures this.web == web && this.netloc == netloc && this.observed == observed
      ensures baseDomain == netloc(startUrl)
      ensures Snapshot() == Initial(Cfg()) && dequeued == []
    {
      this.startUrl := startUrl;
      this.baseDomain := netloc(startUrl);
      this.maxDepth := maxDepth;
      this.rules := rules;
      this.web := web;
      this.netloc := netloc;
      this.observed := observed;
      queue := [Entry(startUrl, 0)];
      visited := {startUrl};
      results := [];
      isRunning := false;
      stats := Stats(0, 0, 0);
      events := [];
      dequeued := [];
      new;
      InitialInv(Cfg());
    }

    /** The link loop of `crawl_step`, over the page's anchors in document
        order; returns whether an anchor raised. */
    method DiscoverLinks(anchors: seq<Anchor>, depth: int) returns (raised: bool)
      modifies this`visited, this`queue
      ensures Discovery(visited, queue, raised)
           == Discover(netloc, baseDomain, anchors, depth, old(visited), old(queue))
    {
      ghost var goal := Discover(netloc, baseDomain, anchors, depth, visited, queue);
      raised := false;
      var i := 0;
      while i < |anchors| && !raised
        invariant 0 <= i <= |anchors|
        invariant !raised ==> Discover(netloc, baseDomain, anchors[i..], depth, visited, queue) == goal
        invariant raised ==> goal == Discovery(visited, queue, true)
      {
        assert anchors[i..][1..] == anchors[i + 1..];
        match anchors[i] {
          case Unresolvable =>
            raised := true;
          case Link(link) =>
            if netloc(link) == baseDomain && link !in visited {
              if !Blocked(link) {
                visited := visited + {link};
                queue := queue + [Entry(link, depth)];
              }
            }
        }
        i := i + 1;
      }
    }

    /** The `try` block of `crawl_step`, for an entry already dequeued. */
    method ProcessEntry(entry: Entry)
      modifies this
      ensures Snapshot() == Process(Cfg(), old(Snapshot()), entry)
      ensures dequeued == old(dequeued)
    {
      ghost var s0 := Snapshot();
      stats := stats.(scanned := stats.scanned + 1);
      if observed {
        events := events + [Status(ScanMessage(entry.url))];
      }
      ghost var s1 := Snapshot();
      assert s1 == Scan(Cfg(), s0, entry);
      match web(entry.url) {
        case Raised =>
          stats := stats.(errors := stats.errors + 1);
          assert Snapshot() == Failed(s1) == Process(Cfg(), s0, entry);
        case Response(code, content) =>
          if code == 200 {
            match content {
              case Unparsable =>
                stats := stats.(errors := stats.errors + 1);
                assert Snapshot() == Failed(s1) == Process(Cfg(), s0, entry);
              case Html(doc, anchors) =>
                ProcessPage(entry, doc, anchors);
                assert Snapshot() == Process(Cfg(), s0, entry);
            }
          } else {
            assert Snapshot() == s1 == Process(Cfg(), s0, entry);
          }
      }
    }

    /** The part of the `try` block for a page that parsed: keep its record,
        if any, then follow its links when below the depth limit. */
    method ProcessPage(entry: Entry, doc: Document, anchors: seq<Anchor>)
      modifies this
      ensures var s2 := Collect(Cfg(), old(Snapshot()), Extract(doc, rules, entry.url));
        Snapshot() == if entry.depth < maxDepth then Follow(Cfg(), s2, anchors, entry.depth + 1) else s2
      ensures dequeued == old(dequeued)
    {
      var product := Extract(doc, rules, entry.url);
      Keep(product);
      if entry.depth < maxDepth {
        FollowLinks(anchors, entry.depth + 1);
      }
    }

    /** Appending, counting and reporting the page's record, if it has one. */
    method Keep(product: Option<Record>)
      modifies this`results, this`stats, this`events
      ensures Snapshot() == Collect(Cfg(), old(Snapshot()), product)
    {
      if product.Some? {
        results := results + [product.value];
        stats := stats.(productsFound := stats.productsFound + 1);
        if observed {
          events := events + [Data(product.value)];
        }
      }
    }

    /** The link loop, with an anchor that raises counted as an error. */
    method FollowLinks(anchors: seq<Anchor>, depth: int)
      modifies this`visited, this`queue, this`stats
      ensures Snapshot() == Follow(Cfg(), old(Snapshot()), anchors, depth)
    {
      var raised := DiscoverLinks(anchors, depth);
      if raised {
        stats := stats.(errors := stats.errors + 1);
      }
    }

    /** `crawl_step`. */
    method CrawlStep() returns (progressed: bool)
      requires Valid()
      modifies this
      ensures Valid()
      ensures (Snapshot(), progressed) == Step(Cfg(), old(Snapshot()))
      ensures dequeued == old(dequeued) + (if progressed then [old(queue)[0]] else [])
    {
      if queue == [] || !isRunning {
        return false;
      }
      StepPreservesInv(Cfg(), Snapshot(), dequeued);
      var entry := queue[0];
      queue := queue[1..];
      dequeued := dequeued + [entry];
      progressed := true;
      if entry.depth <= maxDepth {
        ProcessEntry(entry);
      }
    }

    /** `stop()`: clears the running flag and nothing else. */
    method Stop()
      modifies this`isRunning
      ensures Snapshot() == Engine.Stop(old(Snapshot()))
    {
      isRunning := false;
    }

    /** `start()`: sets the running flag, steps while running and the queue is
        non-empty, then reports `done` with the final counters. The
        observer's `stop()`, which the crawler sees between steps, is modelled
        by `stopAfter`: the number of steps after which it arrives, if it
        does. */
    method Start(stopAfter: Option<nat>) returns (ghost steps: nat)
      requires Valid()
      modifies this
      ensures var ran := Run(Cfg(), old(Snapshot()).(running := true), stopAfter, steps);
        && Snapshot().(events := ran.events) == ran
        && events == ran.events + Log(Cfg(), [Done(stats)])
      ensures Held(Cfg(), old(Snapshot()).(running := true), stopAfter, steps)
      ensures stopAfter.Some? ==> steps <= stopAfter.value
      ensures Valid()
      ensures !isRunning || queue == []
      ensures stopAfter.None? ==> isRunning && queue == []
      ensures |old(dequeued)| <= |dequeued| && dequeued[..|old(dequeued)|] == old(dequeued)
      ensures observed ==>
        && |events| > 0 && events[|events| - 1] == Done(stats)
        && Grows(old(Snapshot()), Snapshot().(events := events[..|events| - 1]))
      ensures !observed ==> Grows(old(Snapshot()), Snapshot()) && events == []
      ensures DoneCount(events) == DoneCount(old(events)) + (if observed then 1 else 0)
    {
      RunInvIgnoresRunning(Cfg(), Snapshot(), dequeued, true);
      isRunning := true;
      steps := Loop(stopAfter);
      ghost var last := Snapshot();
      ReportDone();
      if observed {
        assert events[..|events| - 1] == last.events;
        assert Snapshot().(events := events[..|events| - 1]) == last;
      }
    }

    /** The `done` call at the end of `start()`, with the counters. */
    method ReportDone()
      requires Valid()
      modifies this`events
      ensures Valid()
      ensures events == old(events) + (if observed then [Done(stats)] else [])
      ensures DoneCount(events) == DoneCount(old(events)) + (if observed then 1 else 0)
    {
      if observed {
        LogAppend(events, [Done(stats)]);
        assert [Done(stats)][..0] == [];
        events := events + [Done(stats)];
      }
    }

    /** The loop of `start()`: step while running and the queue is non-empty;
        the observer's `stop()` lands after `stopAfter` iterations, if ever.
        Returns the number of iterations. */
    method Loop(stopAfter: Option<nat>) returns (n: nat)
      requires Valid() && isRunning
      modifies this
      ensures Snapshot() == Run(Cfg(), old(Snapshot()), stopAfter, n)
      ensures Held(Cfg(), old(Snapshot()), stopAfter, n)
      ensures stopAfter.Some? ==> n <= stopAfter.value
      ensures Valid()
      ensures !isRunning || queue == []
      ensures stopAfter.None? ==> isRunning && queue == []
      ensures |old(dequeued)| <= |dequeued| && dequeued[..|old(dequeued)|] == old(dequeued)
      ensures Grows(old(Snapshot()), Snapshot())
    {
      ghost var s0 := Snapshot();
      ghost var d0 := dequeued;
      n := 0;
      if stopAfter == Some(0) {
        RunInvIgnoresRunning(Cfg(), Snapshot(), dequeued, false);
        Stop();
      }
      while isRunning && queue != []
        invariant Valid()
        invariant Snapshot() == Run(Cfg(), s0, stopAfter, n)
        invariant Held(Cfg(), s0, stopAfter, n)
        invariant stopAfter.Some? ==> n <= stopAfter.value
        invariant stopAfter.None? ==> isRunning
        invariant |d0| <= |dequeued| && dequeued[..|d0|] == d0
        decreases Reach(Cfg(), Bound(Cfg())) - visited, |queue|
      {
        n := Iterate(stopAfter, n, s0, d0);
      }
      RunGrows(Cfg(), s0, stopAfter, n);
    }

    /** Iteration `n + 1` of the loop of `start()`: one `crawl_step`, then the
        observer's `stop()` if it is due after this iteration. The state is
        the run of `n + 1` iterations from the loop's entry state `s0`; the
        step either visits a new URL within reach of the seed or shortens the
        queue, which is why the loop ends. */
    method Iterate(stopAfter: Option<nat>, n: nat, ghost s0: State, ghost d0: seq<Entry>) returns (m: nat)
      requires Valid() && isRunning && queue != []
      requires Snapshot() == Run(Cfg(), s0, stopAfter, n)
      requires Held(Cfg(), s0, stopAfter, n)
      requires stopAfter.Some? ==> n <= stopAfter.value
      requires |d0| <= |dequeued| && dequeued[..|d0|] == d0
      modifies this
      ensures m == n + 1
      ensures Valid()
      ensures Snapshot() == Run(Cfg(), s0, stopAfter, m)
      ensures Held(Cfg(), s0, stopAfter, m)
      ensures stopAfter.Some? ==> m <= stopAfter.value
      ensures stopAfter.None? ==> isRunning
      ensures |d0| <= |dequeued| && dequeued[..|d0|] == d0
      ensures old(visited) <= visited <= Reach(Cfg(), Bound(Cfg()))
      ensures visited == old(visited) ==> |queue| < old(|queue|)
    {
      ghost var before := Snapshot();
      ghost var hist := dequeued;
      ghost var front := queue[0];
      if stopAfter.Some? {
        RunBound(Cfg(), s0, stopAfter.value, n);
      }
      m := n + 1;
      Advance(stopAfter, m);
      RunAdvance(Cfg(), s0, stopAfter, m, before, Snapshot());
      PrefixKept(d0, hist, front);
    }

    /** The body of the loop: one `crawl_step` from a valid state, which
        either visits a new URL within reach of the seed or shortens the
        queue, then the observer's `stop()` if it is due after iteration
        `n`. */
    method Advance(stopAfter: Option<nat>, n: nat)
      requires Valid() && isRunning && queue != []
      modifies this
      ensures Valid()
      ensures Snapshot() == Interrupt(Step(Cfg(), old(Snapshot())).0, stopAfter, n)
      ensures stopAfter != Some(n) ==> isRunning
      ensures dequeued == old(dequeued) + [old(queue)[0]]
      ensures old(visited) <= visited <= Reach(Cfg(), Bound(Cfg()))
      ensures visited == old(visited) ==> |queue| < old(|queue|)
    {
      StepShrinks(Cfg(), Snapshot(), dequeued);
      var _ := CrawlStep();
      if stopAfter == Some(n) {
        RunInvIgnoresRunning(Cfg(), Snapshot(), dequeued, false);
        Stop();
      }
    }
  }
}
