# RobustCrawler, modelled in Dafny

A model of the crawl engine of the web crawler in `src/crawler.py`: the class
`RobustCrawler`, a sequential state machine over a FIFO queue of
`(url, depth)` entries, a `visited` set, a list of extracted records, three
counters (`scanned`, `products_found`, `errors`) and an `is_running` flag.
Each call of `crawl_step` dequeues one entry. It skips the entry if it is
deeper than `max_depth`. Otherwise it counts a scan, fetches the page,
extracts a record with a first-non-empty-match-wins rule over an ordered
field-to-selectors map, and, below the depth limit, enqueues the page's
same-host links that are not yet visited and not on the extension denylist.
Any failure is caught and counted as an error. `start` repeats the step while
running and the queue is non-empty and then reports `done`; `stop` clears the
flag.

Modules:

- `Web` (web.dfy): the outside world as data. A fetch either raises or gives
  a status and a body; a body either fails to parse or is a document (a
  function from CSS selector to `Invalid | NoMatch | Text(stripped text)`)
  plus its anchors, already resolved, in document order.
- `Extraction` (extraction.dfy): `extract_data` as pure functions. A record is
  a Python dict: an ordered list of entries with unique keys.
- `Links` (links.dfy): the link-discovery loop as a function, and its
  properties: append-only, filtered, deduplicated, in document order,
  complete up to the first anchor that raises.
- `Engine` (engine.dfy): the crawler state as a value, `crawl_step` as
  `Step`, and the run invariant `RunInv` with the lemmas that a step keeps it.
  The invariant is stated over the trail: the entries dequeued so far followed
  by the queue.
- `Crawler` (crawler.dfy): the class `RobustCrawler`, whose methods update its
  fields in place. Each method is proved to produce exactly the state the
  engine's function gives: `CrawlStep` gives `Step`, and `Start` gives `Run`,
  the loop of `start` as repeated steps interrupted by the observer's `stop`.
  `CrawlStep` and `Start` also keep `Valid()`, the run invariant over the
  fields.
- `Export` (export.dfy): the decision part of `export_data`.

The callback is modelled as an append-only event log (`Status`, `Data`,
`Done`) that stays empty when no callback was given. `urlparse(...).netloc`
is a given function `netloc`. The web is a fixed snapshot `web: Url -> Fetch`.

Where the code and its documentation differ, the model follows the code:

- Nothing validates `start_url` or `max_depth`. A negative `max_depth` makes
  the first step drop the seed without scanning it (`TooDeepSkipped`).
- `start` does not reset the counters, the queue or `visited`. A second
  `start` continues from where the first one stopped.
- The denylist is tested against the whole lower-cased URL, query string
  included, and not only its path. URLs are not normalised before the
  `visited` test.
- The politeness sleep sits inside the `try` block. A failing page therefore
  skips it. For `delay >= 0` the sleep has no effect on the state; a
  negative `delay` is not modelled (see "Left out").

## Model

| member | source | states |
|---|---|---|
| Extraction.Put | src/crawler.py:59 | `data[field] = v`: the key set gains the key, the key maps to `v`, other keys are unchanged, a new key goes at the end, and an existing key keeps its position |
| Extraction.PutAgain | src/crawler.py:59-66 | overwriting the "N/A" just written for a new field replaces it in place |
| Extraction.FirstMatch | src/crawler.py:60-70 | none exactly when no selector hits; otherwise the text of a hitting selector before which none hits (first match wins, list order) |
| Extraction.MissSkipped | src/crawler.py:61-70 | a selector that raises, matches nothing or matches only whitespace can be removed without changing the field's value |
| Extraction.FillAllFound | src/crawler.py:56-67 | `found_any` is true exactly when some field's selectors hit |
| Extraction.FillAllKeys | src/crawler.py:55-59 | the filled dict has the starting keys plus every configured field, and no other key |
| Extraction.FillFieldFresh | src/crawler.py:59-68 | filling a new field appends it with its first hit or "N/A" |
| Extraction.FillAllShape | src/crawler.py:58-70 | with distinct, new field names, the filled dict is the start followed by every field's value, in configuration order |
| Extraction.ExtractNoneIff | src/crawler.py:54-72 | `extract_data` returns None exactly when no field found non-empty text, and always for an empty selector map |
| Extraction.ExtractKeys | src/crawler.py:55-72 | a record has the key "url" and a key for every configured field, and no other key |
| Extraction.ExtractShape | src/crawler.py:54-72 | with distinct field names other than "url", a record is the page URL under "url" followed by each field's first hit or "N/A", in order |
| Links.DiscoverAppends | src/crawler.py:101-114 | the link loop only appends to the queue; each appended entry is at the given depth, on the seed's host, not denied, not visited before, the link of an anchor before the first one that raises, and appears once; `visited` grows by exactly the appended URLs |
| Links.DiscoverInOrder | src/crawler.py:102-110 | the appended URLs are a subsequence of the page's links |
| Links.DiscoverFirstSeen | src/crawler.py:102-110 | accepted links are appended in the order of their first occurrence on the page: wherever a later appended URL occurs among the anchors, every earlier appended one occurs before it |
| Links.DiscoverComplete | src/crawler.py:102-118 | every link before the first anchor that raises and that passes the filter ends up visited; the loop raises exactly when some anchor cannot be resolved |
| Engine.InitialInv | src/crawler.py:39-45 | the state `__init__` leaves satisfies the run invariant |
| Engine.VisitedBounded | src/crawler.py:101-110 | every visited URL lies within `max(max_depth, 0)` links of the seed, so a run visits finitely many URLs |
| Engine.ProcessFrontier | src/crawler.py:83-114 | processing a page only appends entries one level deeper, admitted by the filter, unvisited, linked from the page before its first anchor that raises, and each once; `visited` grows by exactly those |
| Engine.FollowCounts | src/crawler.py:101-116 | following links changes only the frontier and the error counter, which rises by one exactly when some anchor cannot be resolved |
| Engine.ProcessCounts | src/crawler.py:84-98 | processing counts exactly one scan, keeps and counts the page's record if any, counts at most one error, and reports the status line and then the record |
| Engine.TrailGrows | src/crawler.py:107-110 | appending a page's admitted links keeps the trail distinct, depth-ordered, equal to `visited` and within reach |
| Engine.StepKeepsTrail | src/crawler.py:78-110 | a step keeps the trail invariant and keeps the queue within two consecutive levels |
| Engine.StepKeepsCounts | src/crawler.py:84-98 | a step keeps `len(results) == products_found <= scanned`, `errors <= scanned` and the event counts |
| Engine.StepKeepsKeyed | src/crawler.py:93-95 | every kept record carries the key "url", before and after a step |
| Engine.StepPreservesInv | src/crawler.py:74-118 | every step keeps the run invariant: breadth-first depth order, no URL enqueued twice, queue within `visited`, depth bound, link filter, counter relations, events matching results and scans |
| Engine.StepShrinks | src/crawler.py:78-110 | a step that does something enlarges `visited` (within the reach bound) or shortens the queue |
| Engine.StepEvents | src/crawler.py:86-98 | one step reports nothing or, for a processed entry, its status line followed by its record if any; never `done` |
| Engine.StepGrows | src/crawler.py:74-118 | a step loses nothing: `visited`, results, counters and the event log only grow |
| Engine.StepNoOp | src/crawler.py:75-76 | with an empty queue or when not running, the step returns False and changes nothing |
| Engine.StoppedStaysPut | src/crawler.py:75-76 | a stopped crawler stays as it is over any number of steps |
| Engine.StopIdempotent | src/crawler.py:128-129 | `stop()` is idempotent and changes only the running flag |
| Engine.TooDeepSkipped | src/crawler.py:78-81 | an entry deeper than the limit is dropped: the step returns True and nothing is scanned, fetched or counted |
| Engine.StepCounters | src/crawler.py:84-118 | counters never decrease; a step counts at most one scan, one record and one error; results grow by exactly the new records |
| Engine.NonOkPageInert | src/crawler.py:89 | a non-200 response yields no record, no links and no error, only the scan |
| Engine.FailureCounted | src/crawler.py:88-118 | a fetch or parse failure counts exactly one error beside its scan, and the step still returns True |
| Engine.StepsLast | src/crawler.py:122-123 | `n + 1` consecutive `crawl_step` calls are `n` calls followed by one more |
| Engine.RunUnstopped | src/crawler.py:121-123 | a run of the loop that nobody stops is exactly `n` consecutive `crawl_step` calls |
| Engine.RunPrefix | src/crawler.py:120-129 | until the iteration at which `stop()` lands, a run is plain `crawl_step` calls |
| Engine.RunStopped | src/crawler.py:120-129 | from the iteration at which `stop()` lands on, the state is the one that many steps left, with the flag cleared, and later iterations change nothing |
| Engine.RunBound | src/crawler.py:122-129 | a run still going after `n` iterations has not yet reached the iteration at which `stop()` lands |
| Engine.HeldAll | src/crawler.py:122-123 | a run's record that the loop test held is exactly that the test held at every earlier iteration count |
| Engine.RunExitUnique | src/crawler.py:122-123 | the iteration count of a run is determined: it is the first count at which `self.is_running and self.queue` fails |
| Engine.RunGrows | src/crawler.py:121-123 | a run loses nothing: `visited`, results, counters and the event log only grow |
| Crawler.RobustCrawler.constructor | src/crawler.py:31-45 | the seed queued at depth 0 and visited, base domain the seed's host, no results, zero counters, not running; the run invariant holds |
| Crawler.RobustCrawler.DiscoverLinks | src/crawler.py:101-110 | the anchor loop updates `visited` and the queue exactly as the discovery function does, and reports whether an anchor raised |
| Crawler.RobustCrawler.ProcessEntry | src/crawler.py:83-118 | the `try` block updates the fields exactly as the engine's processing of the entry |
| Crawler.RobustCrawler.ProcessPage | src/crawler.py:89-110 | for a parsed 200 page, keeps its record and then follows its links below the limit |
| Crawler.RobustCrawler.Keep | src/crawler.py:94-98 | a record, if any, is appended to the results, counted, and reported to the callback; nothing else changes |
| Crawler.RobustCrawler.FollowLinks | src/crawler.py:101-116 | the anchor loop's effect on `visited` and the queue, with an anchor that raises counted as one error |
| Crawler.RobustCrawler.CrawlStep | src/crawler.py:74-118 | `crawl_step` produces exactly the engine's step and its result, and keeps the run invariant |
| Crawler.RobustCrawler.Stop | src/crawler.py:128-129 | `stop()` clears the running flag and nothing else |
| Crawler.RobustCrawler.Loop | src/crawler.py:122-123 | the loop leaves the fields exactly as `Run` of its `n` iterations from its entry state, the test having held before each of them and failing after the last, with `n` no more than the iterations before `stop()`; it ends not running or with an empty queue (always empty when never stopped), keeps the run invariant and loses nothing |
| Crawler.RobustCrawler.Iterate | src/crawler.py:122-129 | after iteration `n + 1` the fields are the run of `n + 1` iterations from the loop's entry state, the test having held before each, still within the stop bound, and the step either visits a new URL within reach of the seed or shortens the queue, which is why the loop ends |
| Crawler.RobustCrawler.Advance | src/crawler.py:123-129 | one iteration is exactly the engine's step followed by `stop()` when it is due; it keeps the run invariant, dequeues the front entry, and grows `visited` within reach of the seed or shortens the queue |
| Crawler.RobustCrawler.ReportDone | src/crawler.py:125-126 | `done` is reported once, with the counters, when a callback was given, and the run invariant still holds |
| Crawler.RobustCrawler.Start | src/crawler.py:120-126 | `start` sets the flag and leaves the state `Run` gives for its iterations (consecutive `crawl_step` calls, cut short when `stop()` lands), their number being the first count at which the loop test fails, ending stopped or with an empty queue (always empty when never stopped); then it reports `done` with the final counters exactly once, after every status and data event of the run |
| Export.OutputPath | src/crawler.py:136-137 | the path is the file name, an underscore, the timestamp, a dot and the format, each at its place |
| Export.ExportOutcome | src/crawler.py:131-148 | export fails with "No data to export" on an empty table; it fails with the writer's message when a known format's writer raises; otherwise it succeeds with the path, an unknown format included |
| Export.NoTableIff | src/crawler.py:132-134 | for records that all carry "url", which every extracted record does, the table is empty exactly when there are no records |
| Export.CrawlerExportRefused | src/crawler.py:131-134 | for the results of a crawler in any reachable state, export succeeds exactly when there is a result and the writer does not raise (an unknown format writes nothing and succeeds), and with no results it fails with "No data to export" |

## Left out

- The GUI (`src/gui.py`) and the thread that runs `start` in it are not part of this model. `stop()` is an ordinary call between two steps, and cross-thread visibility of the flag is not modelled.
- Crawler.RobustCrawler.Start: the GUI's `stop()` arrives from another thread. Here it is the parameter `stopAfter`, the number of steps after which it lands (`None` for never). So only stops that fall between steps are covered.
- The network: `requests.get`, its timeout and the random User-Agent of `get_headers` (src/crawler.py:47-52, 88). A fetch is a lookup in the fixed web snapshot. A page that changes between fetches is not modelled.
- HTML parsing and URL handling (`BeautifulSoup`, `select_one`, `get_text`, `find_all`, `urljoin`, `urlparse`) are foreign libraries. Their outcomes are data in `Web`: a document's answer per selector, the anchors resolved in document order, and `netloc` as a given function. `urlparse(start_url)` is taken not to raise.
- The callback is taken not to raise. A raising callback inside `crawl_step` would be counted as an error; one in `start` would escape. Neither is modelled.
- The politeness delay `time.sleep(delay + random.uniform(0, 0.5))` is timing and randomness, so `delay` is not a field of the model. The model assumes `delay >= 0`, as the GUI passes the default 1.0 (src/gui.py:95). `__init__` accepts any value. With a negative `delay` the sleep's argument can be negative (always, once `delay < -0.5`) and `time.sleep` raises `ValueError`: that step would then count one error after its record and links were already kept. That outcome is not modelled.
- Logging of errors (src/crawler.py:16, 116) has no effect on state.
- `CrawlerConfig._load_selectors` (src/crawler.py:23-28) reads a file. Its result is the constructor's `rules` parameter, empty when the file is missing.
- Links.LowerChar: `str.lower()` is modelled for ASCII letters only. No non-ASCII character lowers to a letter of a denied extension, so the denylist test is unaffected.
- Crawler.RobustCrawler.Start: the `done` event carries a copy of the counters, whereas the code passes the live dict. A callback that keeps the reference would see later changes, which this does not capture.
- Export.ExportOutcome: the writing itself (pandas CSV, JSON and Excel output) and `datetime.now()` are outside the model. The timestamp and the writer's error message are parameters.
