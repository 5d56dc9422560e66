/** Link discovery, the inner loop of `RobustCrawler.crawl_step`: anchors are
    taken in document order; a link on the seed's host that has not been
    visited and does not end in a denied extension is marked visited and
    enqueued one level deeper; an anchor that cannot be resolved raises and
    ends the loop. */
module Links {
  import opened Web

  /** A frontier entry: a URL and the number of links followed to reach it. */
  datatype Entry = Entry(url: Url, depth: int)

  /** Extensions of non-content resources, tested against the whole URL. */
  const Denylist: seq<string> := [".png", ".jpg", ".css", ".js", ".pdf"]

  /** `str.lower()` on one character, for ASCII letters. (Python also lowers
      other scripts, but no non-ASCII character lowers to one of the letters
      the denylist contains, so the test below is unaffected.) */
  function LowerChar(c: char): char {
    if 'A' <= c <= 'Z' then (c as int - 'A' as int + 'a' as int) as char else c
  }

  function Lower(s: string): string {
    seq(|s|, i requires 0 <= i < |s| => LowerChar(s[i]))
  }

  predicate EndsWith(s: string, suffix: string) {
    |suffix| <= |s| && s[|s| - |suffix|..] == suffix
  }

  /** The lower-cased URL ends in a denied extension. */
  predicate Blocked(link: Url) {
    exists i :: 0 <= i < |Denylist| && EndsWith(Lower(link), Denylist[i])
  }

  /** The link stays on the seed's host and is not a denied resource. */
  predicate Passes(netloc: Url -> string, base: string, link: Url) {
    netloc(link) == base && !Blocked(link)
  }

  /** The state the discovery loop updates, and whether it ended by raising. */
  datatype Discovery = Discovery(visited: set<Url>, queue: seq<Entry>, raised: bool)

  /** The discovery loop over `anchors`, enqueueing at `depth`. */
  function Discover(netloc: Url -> string, base: string, anchors: seq<Anchor>, depth: int,
                    visited: set<Url>, queue: seq<Entry>): Discovery
  {
    if anchors == [] then Discovery(visited, queue, false)
    else match anchors[0]
      case Unresolvable => Discovery(visited, queue, true)
      case Link(link) =>
        if netloc(link) == base && link !in visited && !Blocked(link) then
          Discover(netloc, base, anchors[1..], depth, visited + {link}, queue + [Entry(link, depth)])
        else
          Discover(netloc, base, anchors[1..], depth, visited, queue)
  }

  // ---------------------------------------------------------------------------
  // Reference definitions

  function UrlsOf(es: seq<Entry>): set<Url> {
    set e | e in es :: e.url
  }

  function Urls(es: seq<Entry>): seq<Url> {
    seq(|es|, i requires 0 <= i < |es| => es[i].url)
  }

  predicate DistinctUrls(es: seq<Entry>) {
    forall i, j :: 0 <= i < j < |es| ==> es[i].url != es[j].url
  }

  /** The URLs of the resolvable anchors, in document order. */
  function LinkUrls(anchors: seq<Anchor>): seq<Url> {
    if anchors == [] then []
    else if anchors[0].Link? then [anchors[0].url] + LinkUrls(anchors[1..])
    else LinkUrls(anchors[1..])
  }

  /** `xs` can be obtained from `ys` by deleting elements. */
  predicate Subseq(xs: seq<Url>, ys: seq<Url>) {
    xs == [] || (ys != [] && ((xs[0] == ys[0] && Subseq(xs[1..], ys[1..])) || Subseq(xs, ys[1..])))
  }

  /** No anchor before index `k` raises. */
  predicate ResolvedBefore(anchors: seq<Anchor>, k: int) {
    forall j :: 0 <= j < k && j < |anchors| ==> anchors[j].Link?
  }

  /** Each appended URL is taken at its first occurrence among the anchors:
      wherever the later of two appended URLs occurs, the earlier one occurs
      before it. */
  predicate FirstSeenOrder(added: seq<Entry>, anchors: seq<Anchor>) {
    forall i, j, k :: 0 <= i < j < |added| && 0 <= k < |anchors| && anchors[k] == Link(added[j].url)
      ==> Link(added[i].url) in anchors[..k]
  }

  /** `url` is the link of an anchor that the loop reaches: no anchor before
      it raises. */
  predicate FromResolved(anchors: seq<Anchor>, url: Url) {
    exists k :: 0 <= k < |anchors| && ResolvedBefore(anchors, k) && anchors[k] == Link(url)
  }

  lemma FromResolvedCons(anchors: seq<Anchor>, url: Url)
    requires anchors != [] && anchors[0].Link?
    requires FromResolved(anchors[1..], url)
    ensures FromResolved(anchors, url)
  {
    var k :| 0 <= k < |anchors[1..]| && ResolvedBefore(anchors[1..], k) && anchors[1..][k] == Link(url);
    assert anchors[k + 1] == Link(url);
    forall j | 0 <= j < k + 1 && j < |anchors| ensures anchors[j].Link? {
      if j > 0 {
        assert anchors[j] == anchors[1..][j - 1];
      }
    }
  }

  // ---------------------------------------------------------------------------
  // Properties

  /** The loop only appends to the queue; every appended entry is at `depth`,
      passes the host and extension filter, was not visited before, comes
      from one of the page's anchors before the first one that raises, and
      appears once; and `visited` grows by exactly the appended URLs. */
  lemma {:induction false} DiscoverAppends(netloc: Url -> string, base: string, anchors: seq<Anchor>,
                                           depth: int, visited: set<Url>, queue: seq<Entry>)
    ensures var r := Discover(netloc, base, anchors, depth, visited, queue);
      && |queue| <= |r.queue| && r.queue[..|queue|] == queue
      && (forall e :: e in r.queue[|queue|..] ==>
            e.depth == depth && Passes(netloc, base, e.url) && e.url !in visited && Link(e.url) in anchors
            && FromResolved(anchors, e.url))
      && DistinctUrls(r.queue[|queue|..])
      && r.visited == visited + UrlsOf(r.queue[|queue|..])
  {
    if anchors != [] && anchors[0].Link? {
      var link := anchors[0].url;
      if netloc(link) == base && link !in visited && !Blocked(link) {
        var q1 := queue + [Entry(link, depth)];
        DiscoverAppends(netloc, base, anchors[1..], depth, visited + {link}, q1);
        var r := Discover(netloc, base, anchors[1..], depth, visited + {link}, q1);
        assert r.queue[|queue|..] == [Entry(link, depth)] + r.queue[|q1|..];
        assert UrlsOf(r.queue[|queue|..]) == {link} + UrlsOf(r.queue[|q1|..]);
        assert FromResolved(anchors, link) by {
          assert ResolvedBefore(anchors, 0) && anchors[0] == Link(link);
        }
        forall e | e in r.queue[|q1|..] ensures FromResolved(anchors, e.url) {
          FromResolvedCons(anchors, e.url);
        }
      } else {
        DiscoverAppends(netloc, base, anchors[1..], depth, visited, queue);
        var r := Discover(netloc, base, anchors[1..], depth, visited, queue);
        forall e | e in r.queue[|queue|..] ensures FromResolved(anchors, e.url) {
          FromResolvedCons(anchors, e.url);
        }
      }
    }
  }

  lemma {:induction false} DiscoverExtends(netloc: Url -> string, base: string, anchors: seq<Anchor>,
                                           depth: int, visited: set<Url>, queue: seq<Entry>)
    ensures var r := Discover(netloc, base, anchors, depth, visited, queue);
      |queue| <= |r.queue| && r.queue == queue + r.queue[|queue|..]
  {
    if anchors != [] && anchors[0].Link? {
      var link := anchors[0].url;
      if netloc(link) == base && link !in visited && !Blocked(link) {
        DiscoverExtends(netloc, base, anchors[1..], depth, visited + {link}, queue + [Entry(link, depth)]);
      } else {
        DiscoverExtends(netloc, base, anchors[1..], depth, visited, queue);
      }
    }
  }

  lemma SubseqSkip(xs: seq<Url>, y: Url, ys: seq<Url>)
    requires Subseq(xs, ys)
    ensures Subseq(xs, [y] + ys)
  {
    assert ([y] + ys)[1..] == ys;
  }

  lemma SubseqTake(x: Url, xs: seq<Url>, ys: seq<Url>)
    requires Subseq(xs, ys)
    ensures Subseq([x] + xs, [x] + ys)
  {
    assert ([x] + xs)[1..] == xs;
    assert ([x] + ys)[1..] == ys;
  }

  /** Accepted links are appended in document order. */
  lemma {:induction false} DiscoverInOrder(netloc: Url -> string, base: string, anchors: seq<Anchor>,
                                           depth: int, visited: set<Url>, queue: seq<Entry>)
    ensures var r := Discover(netloc, base, anchors, depth, visited, queue);
      |queue| <= |r.queue| && Subseq(Urls(r.queue[|queue|..]), LinkUrls(anchors))
  {
    DiscoverExtends(netloc, base, anchors, depth, visited, queue);
    if anchors != [] && anchors[0].Link? {
      var link := anchors[0].url;
      assert LinkUrls(anchors) == [link] + LinkUrls(anchors[1..]);
      if netloc(link) == base && link !in visited && !Blocked(link) {
        var q1 := queue + [Entry(link, depth)];
        DiscoverInOrder(netloc, base, anchors[1..], depth, visited + {link}, q1);
        DiscoverExtends(netloc, base, anchors[1..], depth, visited + {link}, q1);
        var r := Discover(netloc, base, anchors[1..], depth, visited + {link}, q1);
        assert r.queue[|queue|..] == [Entry(link, depth)] + r.queue[|q1|..];
        assert Urls(r.queue[|queue|..]) == [link] + Urls(r.queue[|q1|..]);
        SubseqTake(link, Urls(r.queue[|q1|..]), LinkUrls(anchors[1..]));
      } else {
        DiscoverInOrder(netloc, base, anchors[1..], depth, visited, queue);
        var r := Discover(netloc, base, anchors[1..], depth, visited, queue);
        SubseqSkip(Urls(r.queue[|queue|..]), link, LinkUrls(anchors[1..]));
      }
    }
  }

  /** Links are appended in the order of their first occurrence on the page:
      a link repeated later does not move. */
  lemma {:induction false} DiscoverFirstSeen(netloc: Url -> string, base: string, anchors: seq<Anchor>,
                                             depth: int, visited: set<Url>, queue: seq<Entry>)
    ensures var r := Discover(netloc, base, anchors, depth, visited, queue);
      |queue| <= |r.queue| && FirstSeenOrder(r.queue[|queue|..], anchors)
  {
    DiscoverExtends(netloc, base, anchors, depth, visited, queue);
    if anchors != [] && anchors[0].Link? {
      var link := anchors[0].url;
      var rest := anchors[1..];
      if netloc(link) == base && link !in visited && !Blocked(link) {
        var q1 := queue + [Entry(link, depth)];
        var r := Discover(netloc, base, rest, depth, visited + {link}, q1);
        DiscoverFirstSeen(netloc, base, rest, depth, visited + {link}, q1);
        DiscoverAppends(netloc, base, rest, depth, visited + {link}, q1);
        assert r.queue[|queue|..] == [Entry(link, depth)] + r.queue[|q1|..];
        FirstSeenTake(anchors, Entry(link, depth), r.queue[|q1|..]);
      } else {
        var r := Discover(netloc, base, rest, depth, visited, queue);
        DiscoverFirstSeen(netloc, base, rest, depth, visited, queue);
        DiscoverAppends(netloc, base, rest, depth, visited, queue);
        FirstSeenSkip(anchors, r.queue[|queue|..]);
      }
    }
  }

  /** An accepted first anchor goes first; later ones keep their order. */
  lemma FirstSeenTake(anchors: seq<Anchor>, e: Entry, tail: seq<Entry>)
    requires anchors != [] && anchors[0] == Link(e.url)
    requires FirstSeenOrder(tail, anchors[1..])
    requires forall x :: x in tail ==> x.url != e.url
    ensures FirstSeenOrder([e] + tail, anchors)
  {
    var added := [e] + tail;
    var rest := anchors[1..];
    forall i, j, k | 0 <= i < j < |added| && 0 <= k < |anchors| && anchors[k] == Link(added[j].url)
      ensures Link(added[i].url) in anchors[..k]
    {
      assert added[j] == tail[j - 1] && tail[j - 1] in tail;
      assert k > 0;
      if i == 0 {
        assert anchors[..k][0] == anchors[0];
      } else {
        assert added[i] == tail[i - 1];
        assert rest[k - 1] == anchors[k];
        assert rest[..k - 1] == anchors[1..k];
      }
    }
  }

  /** A skipped first anchor that is none of the appended links changes
      nothing. */
  lemma FirstSeenSkip(anchors: seq<Anchor>, added: seq<Entry>)
    requires anchors != [] && FirstSeenOrder(added, anchors[1..])
    requires forall x :: x in added ==> anchors[0] != Link(x.url)
    ensures FirstSeenOrder(added, anchors)
  {
    var rest := anchors[1..];
    forall i, j, k | 0 <= i < j < |added| && 0 <= k < |anchors| && anchors[k] == Link(added[j].url)
      ensures Link(added[i].url) in anchors[..k]
    {
      assert added[j] in added;
      assert k > 0;
      assert rest[k - 1] == anchors[k];
      assert rest[..k - 1] == anchors[1..k];
    }
  }

  /** Nothing acceptable is missed: every link before the first unresolvable
      anchor that passes the filter ends up visited; and the loop raises
      exactly when some anchor is unresolvable. */
  lemma {:induction false} DiscoverComplete(netloc: Url -> string, base: string, anchors: seq<Anchor>,
                                            depth: int, visited: set<Url>, queue: seq<Entry>)
    ensures var r := Discover(netloc, base, anchors, depth, visited, queue);
      && visited <= r.visited
      && (forall k ::
            (0 <= k < |anchors| && ResolvedBefore(anchors, k) && anchors[k].Link? && Passes(netloc, base, anchors[k].url))
            ==> anchors[k].url in r.visited)
      && (r.raised <==> exists k :: 0 <= k < |anchors| && anchors[k].Unresolvable?)
  {
    if anchors != [] {
      var rest := anchors[1..];
      assert forall k :: 0 < k < |anchors| ==> anchors[k] == rest[k - 1];
      if anchors[0].Link? {
        var link := anchors[0].url;
        if netloc(link) == base && link !in visited && !Blocked(link) {
          DiscoverComplete(netloc, base, rest, depth, visited + {link}, queue + [Entry(link, depth)]);
        } else {
          DiscoverComplete(netloc, base, rest, depth, visited, queue);
        }
        forall k | 0 < k < |anchors| && ResolvedBefore(anchors, k) ensures ResolvedBefore(rest, k - 1) {
          forall j | 0 <= j < k - 1 && j < |rest| ensures rest[j].Link? {
            assert rest[j] == anchors[j + 1];
          }
        }
      }
    }
  }
}
