# serritor crawler core, modelled in Dafny

This project models the control logic of the serritor browser-driving web crawler. It proves properties of that model.

- **The `api` crawler.** `BaseCrawler` in `com.github.peterbencze.serritor.api` has three lifecycle flags: stopped, stopping, and may save state. The model covers:
  - the guarded operations over those flags: `start`, `resumeState`, `stop`, `crawl` and its list overload, and `saveState`;
  - the choice of crawl delay mechanism;
  - how the final URL and the MIME type are read off an HTTP HEAD exchange;
  - the control loop. Each iteration takes one candidate and sorts it into one of six outcomes: request error, HEAD redirect, page-load timeout, script redirect, page load, or non-HTML content. Then the callback acts, through `crawl` and `stop`. Then one delay is slept.
- **The legacy crawler.** `BaseCrawler` in `com.serritor` has a running flag and a buffer of requests that callbacks add through `visitUrl`/`visitUrls`. Its loop records each request's crawl depth. It feeds a HEAD redirect straight to the frontier. After the callback of a reachable, non-redirected response, it flushes the buffer into the frontier.
- **`FileFinder`.** It walks the resource tree a page's frames report, frame by frame in pre-order. It keeps each resource whose type is configured and whose size is above the threshold. A `data:image` URL's size is its own length. For any other URL, the resource's content is fetched. The model also covers the `ImageFinderBuilder` with its defaults and validating setters.
- **The adaptive crawl delay.** It clamps the page-load time the browser reports into the configured minimum and maximum. The mechanism's unit test asserts three cases, and the model proves them.
- **The `Browser` enum.** The model covers its four constants and their display strings.

## How the collaborators are represented

The crawl frontier, the HTTP client, the browser and the user's callbacks are not part of this model. What the crawler does to them is recorded, in order, in a trace of events. For example:
- a request fed to the frontier, as a seed or not;
- a candidate taken;
- the browser opening a URL;
- a callback fired;
- a delay slept, with its length;
- the browser quitting.

What they answer arrives as input, one `Step` value per loop iteration. A step holds:
- the candidate;
- the HEAD exchange, or `None` when the request throws `IOException`;
- the browser's load result;
- the `crawl`/`stop` (or `visitUrl`/`visitUrls`/`stop`) calls the fired callback makes;
- the delay mechanism's sample;
- whether the sleep is interrupted.

The frontier has no further candidate once the steps run out.

Each loop is specified twice:
- as a fold over the steps (`Crawler.RunSteps`, `LegacyCrawler.RunSteps`), from which the loop properties are proved as lemmas;
- as a class whose methods update the crawler's fields and trace in place and are proved equal to that fold.

An exception that leaves a loop is the `failure` part of the loop state.

`stop()` is not idempotent: in both crawlers a second call throws `IllegalStateException`, as `Crawler.SecondStopThrows` and `LegacyCrawler.SecondStopThrows` record.

The crawl loop of the `api` crawler reads the MIME type with the corrected `ResponseInspection.ResponseMimeType` (see "## Findings"). `Crawler.ClassifyAgreesWithAsWritten` states exactly where this departs from the code as written.

## Model

| member | source | states |
|---|---|---|
| `Browsers.ToString` | src/main/java/com/github/peterbencze/serritor/api/Browser.java:24-38 | each constant's display string reads back to that constant through the independent lookup `FromString` |
| `Browsers.FromString` | src/main/java/com/github/peterbencze/serritor/api/Browser.java:24-27 | a recognised display string names one of the four declared constants |
| `Browsers.ToStringInjective` | src/main/java/com/github/peterbencze/serritor/api/Browser.java:24-33 | distinct constants have distinct display strings |
| `Browsers.ExactlyFourConstants` | src/main/java/com/github/peterbencze/serritor/api/Browser.java:22-27 | there are exactly four constants, pairwise distinct, and every value is one of them |
| `Browsers.FromStringOnlyDisplayStrings` | src/main/java/com/github/peterbencze/serritor/api/Browser.java:24-38 | a string is recognised iff it is the display string of some constant |
| `CrawlDelay.CreateCrawlDelayMechanism` | src/main/java/com/github/peterbencze/serritor/api/BaseCrawler.java:336-347 | the mechanism implements exactly the configured strategy and is built from that configuration; the unsupported-strategy exception is unreachable |
| `CrawlDelay.AdaptiveDelay` | src/test/java/com/github/peterbencze/serritor/internal/AdaptiveCrawlDelayMechanismTest.java:56-84 | with ordered bounds the delay lies within [minimum, maximum]; an observed time inside the bounds is returned unchanged |
| `CrawlDelay.AdaptiveDelayIsNearest` | src/test/java/com/github/peterbencze/serritor/internal/AdaptiveCrawlDelayMechanismTest.java:56-84 | the adaptive delay is the unique point of [minimum, maximum] nearest to the observed page-load time |
| `CrawlDelay.AdaptiveDelayIdempotent` | src/test/java/com/github/peterbencze/serritor/internal/AdaptiveCrawlDelayMechanismTest.java:76-84 | clamping an already clamped delay changes nothing |
| `CrawlDelay.AdaptiveDelayMonotonic` | src/test/java/com/github/peterbencze/serritor/internal/AdaptiveCrawlDelayMechanismTest.java:56-84 | a longer page load never yields a shorter delay |
| `CrawlDelay.AdaptiveDelayTestCases` | src/test/java/com/github/peterbencze/serritor/internal/AdaptiveCrawlDelayMechanismTest.java:33-84 | with bounds 1000 and 3000 ms: 0 ms gives the minimum, 4000 ms the maximum, 2000 ms itself |
| `CrawlDelay.GetDelay` | src/main/java/com/github/peterbencze/serritor/api/BaseCrawler.java:453-460 | the delay an adaptive mechanism with ordered bounds produces is within its bounds |
| `JavaStrings.ContainsIffOccurs` | src/main/java/com/serritor/BaseCrawler.java:151 | the substring scan holds iff the substring occurs at some index |
| `JavaStrings.Trim` | src/main/java/com/github/peterbencze/serritor/api/BaseCrawler.java:402 | the result is an infix of the input, everything cut off on either side is a character up to U+0020, and the result neither starts nor ends with one |
| `JavaStrings.TrimIdempotent` | src/main/java/com/github/peterbencze/serritor/api/BaseCrawler.java:402 | trimming twice equals trimming once |
| `JavaStrings.JavaSplitFirst` | src/main/java/com/github/peterbencze/serritor/api/BaseCrawler.java:402 | splitting on a character yields no element iff the string is non-empty and made of that character only; otherwise the first element is the text before the first occurrence |
| `ResponseInspection.FinalResponseUrl` | src/main/java/com/github/peterbencze/serritor/api/BaseCrawler.java:374-383 | the last redirect location when there was a redirect, the candidate's own URL otherwise |
| `ResponseInspection.ResponseMimeTypeAsWritten` | src/main/java/com/github/peterbencze/serritor/api/BaseCrawler.java:393-407 | a missing header or header value gives "text/plain"; a parsable value gives the parser's MIME type |
| `ResponseInspection.AsWrittenThrowsIff` | src/main/java/com/github/peterbencze/serritor/api/BaseCrawler.java:393-407 | the method as written throws iff the parser rejects the value and the value is non-empty and consists of ';' only |
| `ResponseInspection.SemicolonOnlyHeaderThrows` | src/main/java/com/github/peterbencze/serritor/api/BaseCrawler.java:401-403 | "Content-Type: ;" makes the as-written fallback throw, while the corrected one yields the empty MIME type |
| `ResponseInspection.ResponseMimeType` | src/main/java/com/github/peterbencze/serritor/api/BaseCrawler.java:393-407 | same cases as written, and the fallback is always defined: it is the trimmed text before the first ';', holds no ';' and is already trimmed |
| `ResponseInspection.CorrectedAgreesWithAsWritten` | src/main/java/com/github/peterbencze/serritor/api/BaseCrawler.java:393-407 | wherever the as-written method returns, the corrected one returns the same MIME type |
| `Crawler.CrawlGuard` | src/main/java/com/github/peterbencze/serritor/api/BaseCrawler.java:218-225 | `crawl` passes iff the crawler is started, not stopping and the request is non-null; a stopped crawler gets the not-started message |
| `Crawler.StopGuard` | src/main/java/com/github/peterbencze/serritor/api/BaseCrawler.java:204-210 | `stop` passes iff started and not already stopping; a stopping crawler gets the already-stopping message |
| `Crawler.SaveStateGuard` | src/main/java/com/github/peterbencze/serritor/api/BaseCrawler.java:160-162 | saving passes iff `canSaveState` |
| `Crawler.RedirectRequest` | src/main/java/com/github/peterbencze/serritor/api/BaseCrawler.java:416-423 | the redirected request targets the redirect URL and keeps the candidate's priority and metadata |
| `Crawler.Classify` | src/main/java/com/github/peterbencze/serritor/api/BaseCrawler.java:266-322 | the six outcomes partition the inputs: failed HEAD iff request error; final URL differs iff HEAD redirect (to that URL); browser opened iff same URL and "text/html"; then timeout, script redirect (to a different URL) or page load; otherwise non-HTML with the response's MIME type |
| `Crawler.ClassifyAgreesWithAsWritten` | src/main/java/com/github/peterbencze/serritor/api/BaseCrawler.java:281-317 | for a response that was not redirected and whose MIME type the code as written can read, the browser is opened iff that MIME type is "text/html", and non-HTML content carries it; where the code as written throws, the model reports non-HTML content with the empty MIME type |
| `Crawler.OneCallbackPerOutcome` | src/main/java/com/github/peterbencze/serritor/api/BaseCrawler.java:273-320 | every outcome fires exactly one of the five per-candidate callbacks and takes no candidate and sleeps no delay |
| `Crawler.ActionsOnlyFeed` | src/main/java/com/github/peterbencze/serritor/api/BaseCrawler.java:218-225 | a callback's calls only append non-seed feeds to the trace, and do nothing once one has thrown |
| `Crawler.IterationCounts` | src/main/java/com/github/peterbencze/serritor/api/BaseCrawler.java:266-325 | one iteration takes exactly one candidate and sleeps exactly one delay unless a callback's call threw |
| `Crawler.OneDelayPerCandidate` | src/main/java/com/github/peterbencze/serritor/api/BaseCrawler.java:266-325 | over a whole loop, candidates taken equal delays slept, plus one when an exception ended the loop |
| `Crawler.AllStepsTakenUnlessHalted` | src/main/java/com/github/peterbencze/serritor/api/BaseCrawler.java:266-267 | a loop that ends neither stopping nor failed has taken every candidate the frontier offered |
| `Crawler.HaltedLoopDoesNothing` | src/main/java/com/github/peterbencze/serritor/api/BaseCrawler.java:266 | a stopping or failed loop takes no further candidate |
| `Crawler.InterruptedDelayStopsLoop` | src/main/java/com/github/peterbencze/serritor/api/BaseCrawler.java:453-460 | an interrupted sleep sets the stopping flag, so the loop ends after that iteration |
| `Crawler.SecondStopThrows` | src/main/java/com/github/peterbencze/serritor/api/BaseCrawler.java:204-210 | a callback calling `stop()` twice throws the already-stopping exception on the second call |
| `Crawler.AdaptiveDelaysWithinBounds` | src/main/java/com/github/peterbencze/serritor/api/BaseCrawler.java:323-324 | with the adaptive mechanism and ordered bounds, every delay the loop sleeps lies within the configured bounds |
| `Crawler.NonNullPrefix` | src/main/java/com/github/peterbencze/serritor/api/BaseCrawler.java:233-235 | the requests before the first null, each equal to the list's element at its index |
| `Crawler.CrawlEachFeedsNonNullPrefix` | src/main/java/com/github/peterbencze/serritor/api/BaseCrawler.java:233-235 | `crawl(list)` on a stopped or stopping crawler throws at the first element and feeds nothing; on a running one it feeds, in order, the requests before the first null and throws the null-request exception iff there is a null |
| `Crawler.BaseCrawler.constructor` | src/main/java/com/github/peterbencze/serritor/api/BaseCrawler.java:90-98 | a new crawler is stopped, not stopping, cannot save state, and has done nothing |
| `Crawler.BaseCrawler.Start` | src/main/java/com/github/peterbencze/serritor/api/BaseCrawler.java:114-116 | a fresh crawl: a new frontier, then the run; refused when already running or without a browser |
| `Crawler.BaseCrawler.ResumeState` | src/main/java/com/github/peterbencze/serritor/api/BaseCrawler.java:189-199 | the saved configuration replaces the current one, the restored frontier is recorded, then the crawl resumes with cookies synced to the browser |
| `Crawler.BaseCrawler.StartCrawl` | src/main/java/com/github/peterbencze/serritor/api/BaseCrawler.java:123-153 | a stopped crawler with a browser runs the loop of `RunSpec` and may save state from then on; the browser is kept and the delay mechanism is created from the configuration; an already running crawler or a missing browser is refused and the browser and delay mechanism are left as they were; on every path the browser (if any) is quit and the crawler is left stopped and not stopping |
| `Crawler.BaseCrawler.SaveState` | src/main/java/com/github/peterbencze/serritor/api/BaseCrawler.java:160-162 | passes iff `canSaveState`, otherwise the cannot-save-state exception |
| `Crawler.BaseCrawler.Stop` | src/main/java/com/github/peterbencze/serritor/api/BaseCrawler.java:204-210 | the result of the stop guard, and the stopping flag is raised exactly when it passes |
| `Crawler.BaseCrawler.Crawl` | src/main/java/com/github/peterbencze/serritor/api/BaseCrawler.java:218-225 | the result of the crawl guard; the request is fed as a non-seed exactly when it passes |
| `Crawler.BaseCrawler.CrawlAll` | src/main/java/com/github/peterbencze/serritor/api/BaseCrawler.java:233-235 | outcome and feeds are those of `crawl` applied to each element in order up to the first that throws |
| `Crawler.BaseCrawler.Run` | src/main/java/com/github/peterbencze/serritor/api/BaseCrawler.java:263-328 | the flags, trace and exception after the loop are those of the loop specification `RunSpec` |
| `Crawler.BaseCrawler.RunIteration` | src/main/java/com/github/peterbencze/serritor/api/BaseCrawler.java:267-324 | one loop body equals the specified `Iteration` on the current state |
| `Crawler.BaseCrawler.HandleRequestRedirect` | src/main/java/com/github/peterbencze/serritor/api/BaseCrawler.java:416-426 | the redirected request is fed as a non-seed, then the redirect callback fires |
| `Crawler.BaseCrawler.RunCallbackActions` | src/main/java/com/github/peterbencze/serritor/api/BaseCrawler.java:204-225 | the callback's `crawl`/`stop` calls in order up to the first that throws, as `ApplyActions` specifies |
| `Crawler.BaseCrawler.PerformDelay` | src/main/java/com/github/peterbencze/serritor/api/BaseCrawler.java:453-460 | one delay of the mechanism's length is slept; an interrupted sleep raises the stopping flag instead of throwing |
| `LegacyCrawler.Visit` | src/main/java/com/serritor/BaseCrawler.java:89-98 | a resolvable URL is buffered with its top private domain at the current depth; otherwise `IllegalArgumentException` with the lookup's message and the buffer unchanged |
| `LegacyCrawler.ResolvablePrefix` | src/main/java/com/serritor/BaseCrawler.java:105-107 | the length of the longest prefix of URLs that resolve; the next URL, if any, does not |
| `LegacyCrawler.AcceptedIsResolvablePrefix` | src/main/java/com/serritor/BaseCrawler.java:105-107 | the requests `visitUrls` buffers are one per URL of the resolvable prefix, each with its URL, domain and the given depth |
| `LegacyCrawler.VisitAllOnlyBuffers` | src/main/java/com/serritor/BaseCrawler.java:105-107 | `visitUrls` changes neither the running flag, the depth nor the trace |
| `LegacyCrawler.VisitAllBuffersResolvablePrefix` | src/main/java/com/serritor/BaseCrawler.java:105-107 | `visitUrls` appends exactly the accepted requests of the resolvable prefix to the buffer |
| `LegacyCrawler.VisitAllThrowsAtFirstRejected` | src/main/java/com/serritor/BaseCrawler.java:105-107 | `visitUrls` throws iff some URL does not resolve, with the message of the first such URL |
| `LegacyCrawler.StopCrawl` | src/main/java/com/serritor/BaseCrawler.java:77-82 | stopping passes iff the crawler is running and clears the flag; otherwise the not-started exception; the buffered requests, the depth and the trace are unchanged, and a state with an exception already in flight is returned as it is |
| `LegacyCrawler.Flush` | src/main/java/com/serritor/BaseCrawler.java:171-175 | every buffered request is fed in order after the existing trace, and the buffer is emptied |
| `LegacyCrawler.ActionsOnlyBuffer` | src/main/java/com/serritor/BaseCrawler.java:77-107 | a callback's calls leave the trace and depth unchanged and only append requests at the current depth to the buffer |
| `LegacyCrawler.CallbackOnlyBuffers` | src/main/java/com/serritor/BaseCrawler.java:118-169 | up to the callback, an iteration records the request, adopts its depth and only appends requests at that depth |
| `LegacyCrawler.UnreachableDoesNotFlush` | src/main/java/com/serritor/BaseCrawler.java:126-133 | an unreachable URL fires its callback and feeds nothing: what the callback buffers stays buffered |
| `LegacyCrawler.RedirectLookupFailure` | src/main/java/com/serritor/BaseCrawler.java:200-202 | on the redirect path a refused host escapes as `IllegalArgumentException` and a host under no public suffix as `IllegalStateException`, with the lookup's message |
| `LegacyCrawler.RedirectFeedsFinalUrl` | src/main/java/com/serritor/BaseCrawler.java:135-141 | a redirect fires no callback, leaves the buffer alone and feeds the last redirect location at the request's depth, or throws the lookup's exception when its domain cannot be found |
| `LegacyCrawler.FlushFeedsBufferInOrder` | src/main/java/com/serritor/BaseCrawler.java:143-175 | after a reachable, non-redirected response whose callback returns, the whole buffer has been fed in order and emptied |
| `LegacyCrawler.IterationAdoptsDepth` | src/main/java/com/serritor/BaseCrawler.java:119-122 | an iteration that does not throw leaves the crawler at the depth of the request it took |
| `LegacyCrawler.HaltedLoopDoesNothing` | src/main/java/com/serritor/BaseCrawler.java:118 | once stopped or failed, the loop takes no further request |
| `LegacyCrawler.SecondStopThrows` | src/main/java/com/serritor/BaseCrawler.java:77-82 | a callback stopping the crawler twice throws the not-started exception on the second call |
| `LegacyCrawler.BaseCrawler.constructor` | src/main/java/com/serritor/BaseCrawler.java:44-49 | a new crawler is not running, has no thread and an empty buffer |
| `LegacyCrawler.BaseCrawler.Start` | src/main/java/com/serritor/BaseCrawler.java:54-72 | refused once a thread exists; in the background only the flag and thread are set; otherwise the run's state and exception are those of the loop specification |
| `LegacyCrawler.BaseCrawler.Stop` | src/main/java/com/serritor/BaseCrawler.java:77-82 | the state and result of `StopCrawl` |
| `LegacyCrawler.BaseCrawler.VisitUrl` | src/main/java/com/serritor/BaseCrawler.java:89-98 | the buffer and result of `Visit` |
| `LegacyCrawler.BaseCrawler.VisitUrls` | src/main/java/com/serritor/BaseCrawler.java:105-107 | the buffer and result of `visitUrl` on each URL in order up to the first that throws |
| `LegacyCrawler.BaseCrawler.Run` | src/main/java/com/serritor/BaseCrawler.java:112-183 | the state after the loop specification, then the driver quit on every path and the end callback only when no exception left the loop |
| `LegacyCrawler.BaseCrawler.RunIteration` | src/main/java/com/serritor/BaseCrawler.java:118-176 | one loop body equals the specified `Iteration` on the current state |
| `LegacyCrawler.BaseCrawler.RunCallbackActions` | src/main/java/com/serritor/BaseCrawler.java:77-107 | the callback's calls in order up to the first that throws, as `ApplyActions` specifies |
| `LegacyCrawler.BaseCrawler.FeedNewCrawlRequests` | src/main/java/com/serritor/BaseCrawler.java:171-175 | the state of `Flush`: every buffered request fed in order, buffer cleared |
| `FileFinder.OptInt` | src/main/java/com/github/peterbencze/serritor/api/helper/FileFinder.java:132 | a missing key reads as 0, and every result is a 32-bit `int` |
| `FileFinder.OptIntReadsNumericText` | src/main/java/com/github/peterbencze/serritor/api/helper/FileFinder.java:132 | a size given as a number and one given as its decimal text read the same |
| `FileFinder.DoubleToInt32` | src/main/java/com/github/peterbencze/serritor/api/helper/FileFinder.java:132 | a floating-point size is rounded toward zero (non-negative values down, negative values up) and saturates at the ends of the `int` range |
| `FileFinder.OptIntDropsFraction` | src/main/java/com/github/peterbencze/serritor/api/helper/FileFinder.java:132 | a non-negative floating-point size within range reads as its whole part |
| `FileFinder.SelectEntryIff` | src/main/java/com/github/peterbencze/serritor/api/helper/FileFinder.java:128-161 | a resource yields an entry iff its type is configured, its size exceeds the threshold and, for a URL that is not a data URL, fetching its content does not throw |
| `FileFinder.EntryContents` | src/main/java/com/github/peterbencze/serritor/api/helper/FileFinder.java:136-151 | the entry's keys and values: frame id, content and base64 flag for a data URL; frame id, URL and the fetched fields otherwise; always the resource's MIME type last |
| `FileFinder.ThresholdIsStrict` | src/main/java/com/github/peterbencze/serritor/api/helper/FileFinder.java:135 | a resource of exactly the threshold size is never selected; one unit more is selected iff its type is configured |
| `FileFinder.DataUrlSizeIgnoresContentSize` | src/main/java/com/github/peterbencze/serritor/api/helper/FileFinder.java:132-133 | a data URL's size is its own length whatever `contentSize` reports |
| `FileFinder.OwnEntriesSoundAndComplete` | src/main/java/com/github/peterbencze/serritor/api/helper/FileFinder.java:114-118 | every entry of a frame comes from one of its resources, and every resource that yields an entry contributes it |
| `FileFinder.ParseIsPreorder` | src/main/java/com/github/peterbencze/serritor/api/helper/FileFinder.java:108-126 | the recursive parse lists each frame's own entries in pre-order of the frame tree |
| `FileFinder.ParseForestIsPreorder` | src/main/java/com/github/peterbencze/serritor/api/helper/FileFinder.java:119-124 | the child frames' entries come in pre-order, sibling after sibling |
| `FileFinder.FindInAttributeValue` | src/main/java/com/github/peterbencze/serritor/api/helper/FileFinder.java:128-161 | the entry built step by step is the specified `SelectEntry` |
| `FileFinder.ParseResources` | src/main/java/com/github/peterbencze/serritor/api/helper/FileFinder.java:108-126 | the list built by the two loops and the recursion is the specified `Parse` |
| `FileFinder.FindAllFiles` | src/main/java/com/github/peterbencze/serritor/api/helper/FileFinder.java:96-106 | a null response throws `NullPointerException` with its message; a resource tree without a frame tree throws `NullPointerException`; otherwise each frame's entries in pre-order |
| `FileFinder.AttributeTypesCheck` | src/main/java/com/github/peterbencze/serritor/api/helper/FileFinder.java:219-227 | passes iff the set is non-null, non-empty and has no null element, each refusal with its exception and message |
| `FileFinder.AttributeNameCheck` | src/main/java/com/github/peterbencze/serritor/api/helper/FileFinder.java:236-241 | passes iff the name is not blank; null gives `NullPointerException`, blank `IllegalArgumentException` |
| `FileFinder.CheckedTypesKept` | src/main/java/com/github/peterbencze/serritor/api/helper/FileFinder.java:219-227 | a checked set keeps every type and adds none, so it is non-empty |
| `FileFinder.NullAttributeTypeRefused` | src/main/java/com/github/peterbencze/serritor/api/helper/FileFinder.java:206-208 | a null single type is refused as a null element |
| `FileFinder.ImageFinderBuilder.constructor` | src/main/java/com/github/peterbencze/serritor/api/helper/FileFinder.java:183-189 | the defaults: types {"Image"}, attribute "url", size 10000 |
| `FileFinder.ImageFinderBuilder.SetAttributeTypes` | src/main/java/com/github/peterbencze/serritor/api/helper/FileFinder.java:219-227 | the check's result; the types are replaced only when it passes, and the builder stays well configured |
| `FileFinder.ImageFinderBuilder.SetAttributeType` | src/main/java/com/github/peterbencze/serritor/api/helper/FileFinder.java:206-208 | passes iff the type is non-null, and then the types are exactly that one |
| `FileFinder.ImageFinderBuilder.SetFileSize` | src/main/java/com/github/peterbencze/serritor/api/helper/FileFinder.java:210-216 | any `int` size is accepted and stored |
| `FileFinder.ImageFinderBuilder.SetAttributeName` | src/main/java/com/github/peterbencze/serritor/api/helper/FileFinder.java:236-241 | the check's result; the name is replaced only when it passes |
| `FileFinder.ImageFinderBuilder.Build` | src/main/java/com/github/peterbencze/serritor/api/helper/FileFinder.java:262-264 | a finder with the builder's settings, which are never empty or blank |
| `FileFinder.CreateDefault` | src/main/java/com/github/peterbencze/serritor/api/helper/FileFinder.java:57-59 | a well-configured finder with the default type, attribute name and size |

## Left out

- The crawl frontier's internals (admission, deduplication, depth and offsite filters, priority order, serialisation). The frontier appears only as the requests fed to it and the candidates taken from it, and it has a next candidate while steps remain.
- The fixed and random delay mechanisms are not among the modelled files. The delay they produce is the step's `delaySample`.
- The HTTP client, `ContentType.parse`, Selenium and the browser's developer-protocol commands. Their answers are inputs: the HEAD exchange, the parser's MIME type, the load result, the resource tree and the `fetch` function.
- `saveState`/`resumeState` serialisation. Only the `canSaveState` guard and the replacement of the configuration are modelled. The restored frontier and cookie store are an event.
- The content of cookie synchronisation between the HTTP client and the browser. It is recorded as an event only.
- `start()` without a driver. It creates an HtmlUnit driver, which is the same as `start(webDriver)` with a driver present.
- Closing the HTTP client and the HEAD responses. These have no effect on the crawler's state.
- `downloadFile`, and the callbacks' default bodies (logging).
- Calls made from `onStart`, `onStop`, `onBegin` and `onEnd`. These callbacks are recorded as events, and only the per-candidate callbacks act.
- The legacy background thread and all concurrency. A background `start()` sets the running flag and the thread only. A `stop()` arriving from another thread is not modelled.
- The legacy driver and HTTP client creation (`initialize`).
- `new URL`, `URL.equals` and `InternetDomainName`. The model compares URLs as strings. Turning a string into a top private domain is the input function `lookup`. A `Rejected` answer carries which of `MalformedURLException`, `IllegalArgumentException` or `IllegalStateException` was thrown. `visitUrl` reports every one as `IllegalArgumentException`. On the redirect path a refused host gives `IllegalArgumentException` and any other cause `IllegalStateException`. A malformed URL cannot arise on that path, because the redirect location has already been parsed as a URL.
- String lengths are counted in characters, not UTF-16 code units.
- Numeric strings with a fraction or an exponent, such as `"12.5"`. Depending on the `org.json` version, `optInt` parses such a string and truncates it toward zero; the model reads every string that is not an optional '-' followed by decimal digits as 0, so a resource whose `contentSize` is such a string can be selected differently. JSON numbers with a fraction are modelled (`FileFinder.DoubleToInt32`).
- A frame tree without a `frame` or `resources` key (a `NullPointerException` in `parseResources`). An absent `childFrames` key is treated as an empty list.
- `FileFinder`'s `urlPattern` and `validator` fields, `setPattern`, `setValidator`, `isValidUrl` and the getters. No operation in the core reads them.
- Aliasing of the set passed to `setAttributeTypes`. The model copies it, so later mutation of the caller's set is not reflected.
- `fetch` is a function of the frame id and URL, so fetching the same resource twice gives the same answer.
- `ContentType.parse` can also throw `IllegalCharsetNameException`, for example for `text/html; charset=a b`. The `catch` in `getResponseMimeType` does not handle it, so it leaves `run()`. The model's `parsedMimeType` is either a MIME type or a rejection that the fallback handles, so it cannot represent that exception.
- `Crawler.Classify`: the MIME type is the corrected `ResponseMimeType`. A non-redirected response whose header value is non-empty, consists of ';' only and is rejected by the parser is classified as non-HTML content with the empty MIME type. The code as written throws `ArrayIndexOutOfBoundsException` out of `run()` there: no callback, no delay and no `onStop`. `Crawler.ClassifyAgreesWithAsWritten` proves that this is the only input where the two differ.
- `Crawler.Iteration`: for the same input, the iteration goes on to the callback and the delay instead of ending the loop with that exception.
- `Crawler.BaseCrawler.RunIteration`: follows `Crawler.Iteration`, so for that input it fires the non-HTML callback and sleeps, where the code as written throws.
- `Crawler.BaseCrawler.Run`: the loop it promises is the one with the corrected MIME type. For that input the run goes on where the code as written ends with the exception.
- `Crawler.BaseCrawler.StartCrawl`: promises the run of `Crawler.BaseCrawler.Run`, so it carries the same difference. The `finally` part, which quits the browser and resets the flags, is as written on every path.
- `Crawler.BaseCrawler.Start`: the same difference, through `Crawler.BaseCrawler.StartCrawl`.
- `Crawler.BaseCrawler.ResumeState`: the same difference, through `Crawler.BaseCrawler.StartCrawl`.
- `LegacyCrawler.StopCrawl`: when an exception is already in flight the state is returned unchanged, so the flag is cleared only for a state with no exception. In the code the callback has already been left by then.
- The `ClassCastException` that `createCrawlDelayMechanism` throws under the adaptive strategy when the driver is not a `JavascriptExecutor` (src/main/java/com/github/peterbencze/serritor/api/BaseCrawler.java:343). The model has only a present or absent driver; every driver the crawler is used with (HtmlUnit, Chrome, Firefox) is one.
- Exceptions that a callback throws by itself. Only the exceptions raised by the crawler's own operations called from a callback (`crawl`, `stop`, `visitUrl`, `visitUrls`) are modelled; any other runtime exception from user code would leave the loop the same way.

## Findings

| source | as written | input that shows it | evidently intended | confidence | as-written member | corrected member |
|---|---|---|---|---|---|---|
| src/main/java/com/github/peterbencze/serritor/api/BaseCrawler.java:401-403 | when `ContentType.parse` rejects the header value, the fallback `contentType.split(";")[0].trim()` indexes the first element of the split, but `split` drops trailing empty strings and returns no element for a value made of ';' only, so `ArrayIndexOutOfBoundsException` leaves the crawl loop | a HEAD response with the header `Content-Type: ;`, which `ContentType.parse` rejects because the value holds no element | the trimmed text before the first ';' (here the empty MIME type, which is then treated as non-HTML content) | medium; not executed | `ResponseInspection.ResponseMimeTypeAsWritten`, shown by `ResponseInspection.SemicolonOnlyHeaderThrows` and `ResponseInspection.AsWrittenThrowsIff` | `ResponseInspection.ResponseMimeType`, related by `ResponseInspection.CorrectedAgreesWithAsWritten` |
