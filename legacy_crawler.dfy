/** The crawler of the older `com.serritor` package: a running flag, a buffer of
    requests the callbacks add through `visitUrl`, and a loop that takes one request per
    iteration, records its crawl depth, sorts the response into unreachable, redirected,
    HTML or non-HTML, and after a callback feeds the buffered requests to the frontier.

    As in the `api` crawler, the frontier, the HTTP client and the browser are not part
    of this model: what the crawler does with them is a trace of events, and what they
    answer arrives as one `Step` per iteration. Turning a string into a URL and finding
    its top private domain is the input function `lookup`. */
module LegacyCrawler {

  import opened Common
  import opened JavaStrings
  import opened ResponseInspection

  /** Why a string has no top private domain: `new URL(s)` throws
      `MalformedURLException`; `InternetDomainName.from` refuses the host, for example
      an IP literal, with `IllegalArgumentException`; or `topPrivateDomain()` finds the
      host under no public suffix and throws `IllegalStateException`. */
  datatype LookupError = MalformedUrl | InvalidHost | NoPublicSuffix

  /** What `new URL(s)` followed by `getTopPrivateDomain` makes of a string: the top
      private domain, or why there is none and the exception's message. */
  datatype DomainLookup = Domain(name: string) | Rejected(cause: LookupError, message: string)

  /** The exception `getTopPrivateDomain` lets out on the redirect path, where nothing
      catches it: a refused host throws `IllegalArgumentException`, a host under no
      public suffix `IllegalStateException`. A redirect location has already been
      parsed as a URL, so a malformed URL does not arise there; the model reports it
      like the public-suffix case. */
  function RedirectLookupFailure(cause: LookupError, message: string): (f: Failure)
    ensures f.IllegalArgument? <==> cause.InvalidHost?
    ensures f.IllegalArgument? || f.IllegalState?
    ensures f.message == message
  {
    if cause.InvalidHost? then IllegalArgument(message) else IllegalState(message)
  }

  /** The legacy `CrawlRequest`: a URL, its top private domain, and the crawl depth it
      was created at. */
  datatype CrawlRequest = CrawlRequest(url: Url, topPrivateDomain: string, crawlDepth: int)

  /** The HEAD exchange as `getHttpHeadResponse` sees it: the redirect locations the
      client recorded (empty when none) and the value of the first `Content-Type`
      header, `None` when there is no such header or it has no value. */
  datatype HttpHeadResponse = HttpHeadResponse(redirectLocations: seq<Url>, contentType: Option<string>)

  /** A call a callback makes back into the crawler. */
  datatype CallbackAction = VisitUrl(url: string) | VisitUrls(urls: seq<string>) | StopCrawler

  /** The answers of the collaborators in one iteration: the request the frontier hands
      out, the HEAD exchange (`None` when it throws `IOException`), whether the browser
      times out, and the calls the fired callback makes. */
  datatype Step = Step(
    request: CrawlRequest,
    head: Option<HttpHeadResponse>,
    timedOut: bool,
    callbackActions: seq<CallbackAction>)

  /** What the crawler does to its collaborators and callbacks, in order. */
  datatype Event =
    | Initialized
    | Begin
    | Dequeued(request: CrawlRequest)
    | UnreachableUrl(url: Url)
    | Fed(request: CrawlRequest)
    | BrowserGet(url: Url)
    | BrowserOpen(url: Url)
    | BrowserTimeout(url: Url)
    | NonHtmlResponse(url: Url)
    | DriverQuit
    | End

  const AlreadyStartedMessage: string := "The crawler is already started."
  const NotStartedMessage: string := "The crawler is not started."

  /** The part of the crawler the loop and the callbacks change, and the exception in
      flight, if any. */
  datatype CrawlState = CrawlState(
    isRunning: bool,
    newCrawlRequests: seq<CrawlRequest>,
    currentCrawlDepth: int,
    trace: seq<Event>,
    failure: Option<Failure>)

  /** `visitUrl(u)`: a resolvable URL is buffered at the current crawl depth; otherwise
      `IllegalArgumentException` with the underlying message, and the buffer is unchanged. */
  function Visit(st: CrawlState, u: string, lookup: string -> DomainLookup): (r: CrawlState)
    ensures r.isRunning == st.isRunning && r.currentCrawlDepth == st.currentCrawlDepth && r.trace == st.trace
    ensures lookup(u).Domain? ==>
      r.failure == st.failure
      && r.newCrawlRequests == st.newCrawlRequests + [CrawlRequest(u, lookup(u).name, st.currentCrawlDepth)]
    ensures lookup(u).Rejected? ==>
      r.failure == Some(IllegalArgument(lookup(u).message)) && r.newCrawlRequests == st.newCrawlRequests
  {
    match lookup(u)
    case Domain(d) => st.(newCrawlRequests := st.newCrawlRequests + [CrawlRequest(u, d, st.currentCrawlDepth)])
    case Rejected(_, m) => st.(failure := Some(IllegalArgument(m)))
  }

  /** `visitUrls(us)`: `visitUrl` on each URL in order, up to the first that throws. */
  function VisitAll(st: CrawlState, us: seq<string>, lookup: string -> DomainLookup): CrawlState
    decreases |us|
  {
    if us == [] || st.failure.Some? then st
    else VisitAll(Visit(st, us[0], lookup), us[1..], lookup)
  }

  /** The number of URLs, from the front of `us`, that resolve. */
  function ResolvablePrefix(us: seq<string>, lookup: string -> DomainLookup): (n: nat)
    ensures n <= |us|
    ensures forall j :: 0 <= j < n ==> lookup(us[j]).Domain?
    ensures n < |us| ==> lookup(us[n]).Rejected?
  {
    if us == [] || lookup(us[0]).Rejected? then 0 else 1 + ResolvablePrefix(us[1..], lookup)
  }

  /** The requests `visitUrls(us)` buffers at depth `depth`: one per URL, in order,
      up to the first URL that does not resolve. */
  function Accepted(us: seq<string>, lookup: string -> DomainLookup, depth: int): seq<CrawlRequest> {
    if us == [] then []
    else match lookup(us[0])
      case Domain(d) => [CrawlRequest(us[0], d, depth)] + Accepted(us[1..], lookup, depth)
      case Rejected(_, _) => []
  }

  /** The buffered requests are one per URL of the resolvable prefix, each with the
      URL, its top private domain and the given depth. */
  lemma {:induction false} AcceptedIsResolvablePrefix(us: seq<string>, lookup: string -> DomainLookup, depth: int)
    ensures var rs := Accepted(us, lookup, depth);
      && |rs| == ResolvablePrefix(us, lookup)
      && forall j :: 0 <= j < |rs| ==> rs[j] == CrawlRequest(us[j], lookup(us[j]).name, depth)
    decreases |us|
  {
    if us != [] && lookup(us[0]).Domain? {
      AcceptedIsResolvablePrefix(us[1..], lookup, depth);
    }
  }

  /** `visitUrls` changes nothing but the buffer and the exception in flight. */
  lemma {:induction false} VisitAllOnlyBuffers(st: CrawlState, us: seq<string>, lookup: string -> DomainLookup)
    ensures var r := VisitAll(st, us, lookup);
      r.isRunning == st.isRunning && r.currentCrawlDepth == st.currentCrawlDepth && r.trace == st.trace
    decreases |us|
  {
    if us != [] && st.failure.None? {
      VisitAllOnlyBuffers(Visit(st, us[0], lookup), us[1..], lookup);
    }
  }

  /** `visitUrls` buffers, in order and at the current depth, exactly the URLs before
      the first one that does not resolve. */
  lemma {:induction false} VisitAllBuffersResolvablePrefix(st: CrawlState, us: seq<string>, lookup: string -> DomainLookup)
    requires st.failure.None?
    ensures VisitAll(st, us, lookup).newCrawlRequests
            == st.newCrawlRequests + Accepted(us, lookup, st.currentCrawlDepth)
    decreases |us|
  {
    if us != [] {
      var next := Visit(st, us[0], lookup);
      assert VisitAll(st, us, lookup) == VisitAll(next, us[1..], lookup);
      if lookup(us[0]).Domain? {
        var depth := st.currentCrawlDepth;
        var first := CrawlRequest(us[0], lookup(us[0]).name, depth);
        VisitAllBuffersResolvablePrefix(next, us[1..], lookup);
        assert next.newCrawlRequests == st.newCrawlRequests + [first];
        assert next.currentCrawlDepth == depth;
        assert Accepted(us, lookup, depth) == [first] + Accepted(us[1..], lookup, depth);
        assert st.newCrawlRequests + ([first] + Accepted(us[1..], lookup, depth))
            == (st.newCrawlRequests + [first]) + Accepted(us[1..], lookup, depth);
      }
    }
  }

  /** `visitUrls` throws iff some URL does not resolve, and then with the message of
      the first such URL. */
  lemma {:induction false} VisitAllThrowsAtFirstRejected(st: CrawlState, us: seq<string>, lookup: string -> DomainLookup)
    requires st.failure.None?
    ensures var r := VisitAll(st, us, lookup);
      var n := ResolvablePrefix(us, lookup);
      && (r.failure.None? <==> n == |us|)
      && (n < |us| ==> r.failure == Some(IllegalArgument(lookup(us[n]).message)))
    decreases |us|
  {
    if us != [] {
      var next := Visit(st, us[0], lookup);
      assert VisitAll(st, us, lookup) == VisitAll(next, us[1..], lookup);
      if lookup(us[0]).Domain? {
        VisitAllThrowsAtFirstRejected(next, us[1..], lookup);
        var n := ResolvablePrefix(us, lookup);
        assert n == 1 + ResolvablePrefix(us[1..], lookup);
        assert n < |us| ==> us[1..][n - 1] == us[n];
      } else {
        assert VisitAll(next, us[1..], lookup) == next;
      }
    }
  }

  /** `stop()`: only a running crawler can be stopped; stopping clears the flag. */
  function StopCrawl(st: CrawlState): (r: CrawlState)
    ensures r.failure.None? <==> st.failure.None? && st.isRunning
    ensures st.failure.None? && !st.isRunning ==> r.failure == Some(IllegalState(NotStartedMessage))
    ensures r.isRunning == (st.failure.Some? && st.isRunning)
    ensures st.failure.Some? ==> r == st
    ensures r.trace == st.trace && r.newCrawlRequests == st.newCrawlRequests
    ensures r.currentCrawlDepth == st.currentCrawlDepth
  {
    if st.failure.Some? then st
    else if !st.isRunning then st.(failure := Some(IllegalState(NotStartedMessage)))
    else st.(isRunning := false)
  }

  function ApplyAction(st: CrawlState, a: CallbackAction, lookup: string -> DomainLookup): CrawlState {
    match a
    case VisitUrl(u) => Visit(st, u, lookup)
    case VisitUrls(us) => VisitAll(st, us, lookup)
    case StopCrawler => StopCrawl(st)
  }

  /** The calls a callback makes, in order, up to the first that throws. */
  function ApplyActions(st: CrawlState, actions: seq<CallbackAction>, lookup: string -> DomainLookup): CrawlState
    decreases |actions|
  {
    if actions == [] || st.failure.Some? then st
    else ApplyActions(ApplyAction(st, actions[0], lookup), actions[1..], lookup)
  }

  /** Feeding the buffered requests to the frontier in order, then clearing the buffer. */
  function Flush(st: CrawlState): (r: CrawlState)
    ensures r.newCrawlRequests == [] && |r.trace| == |st.trace| + |st.newCrawlRequests|
    ensures st.trace <= r.trace
    ensures forall j :: 0 <= j < |st.newCrawlRequests| ==>
      r.trace[|st.trace| + j] == Fed(st.newCrawlRequests[j])
  {
    st.(trace := st.trace + FedAll(st.newCrawlRequests), newCrawlRequests := [])
  }

  function FedAll(rs: seq<CrawlRequest>): (t: seq<Event>)
    ensures |t| == |rs| && forall j :: 0 <= j < |t| ==> t[j] == Fed(rs[j])
  {
    seq(|rs|, j requires 0 <= j < |rs| => Fed(rs[j]))
  }

  /** The content-type test: a header value that contains "text/html". */
  predicate IsHtml(contentType: Option<string>) {
    contentType.Some? && Contains(contentType.value, TextHtml)
  }

  /** Taking the request from the frontier and adopting its crawl depth. */
  function Taken(st: CrawlState, step: Step): CrawlState {
    st.(currentCrawlDepth := step.request.crawlDepth, trace := st.trace + [Dequeued(step.request)])
  }

  /** The events up to and including the callback for a request that was not
      redirected: the unreachable-URL callback; or, for HTML, the browser opening the
      URL and the open or timeout callback; or the non-HTML callback. */
  function CallbackEvents(step: Step): seq<Event> {
    var url := step.request.url;
    match step.head
    case None => [UnreachableUrl(url)]
    case Some(h) =>
      if IsHtml(h.contentType) then [BrowserGet(url), if step.timedOut then BrowserTimeout(url) else BrowserOpen(url)]
      else [NonHtmlResponse(url)]
  }

  /** The state once the callback has returned or thrown. */
  function AfterCallback(st: CrawlState, step: Step, lookup: string -> DomainLookup): CrawlState {
    var taken := Taken(st, step);
    ApplyActions(taken.(trace := taken.trace + CallbackEvents(step)), step.callbackActions, lookup)
  }

  /** One iteration, started with the loop condition true: take the request and adopt
      its depth; an unreachable URL fires its callback and skips the rest; a redirect
      feeds the final URL at the same depth and skips the rest; otherwise the browser
      opens HTML, or the non-HTML callback fires, and then the buffer is flushed. */
  function Iteration(st: CrawlState, step: Step, lookup: string -> DomainLookup): CrawlState {
    var request := step.request;
    match step.head
    case None => AfterCallback(st, step, lookup)
    case Some(h) =>
      var responseUrl := FinalResponseUrl(h.redirectLocations, request.url);
      if responseUrl != request.url then
        var taken := Taken(st, step);
        match lookup(responseUrl)
        case Domain(d) => taken.(trace := taken.trace + [Fed(CrawlRequest(responseUrl, d, request.crawlDepth))])
        case Rejected(cause, m) => taken.(failure := Some(RedirectLookupFailure(cause, m)))
      else
        var called := AfterCallback(st, step, lookup);
        if called.failure.Some? then called else Flush(called)
  }

  predicate Halted(st: CrawlState) {
    !st.isRunning || st.failure.Some?
  }

  /** The loop `while (isRunning && frontier.hasNextRequest())`. */
  function RunSteps(st: CrawlState, steps: seq<Step>, lookup: string -> DomainLookup): CrawlState
    decreases |steps|
  {
    if steps == [] || Halted(st) then st
    else RunSteps(Iteration(st, steps[0], lookup), steps[1..], lookup)
  }

  // ---------------------------------------------------------------------------
  // Properties of one iteration
  // ---------------------------------------------------------------------------

  /** A callback's calls never touch the trace or the depth, and only append to the
      buffer: every request they add carries the current crawl depth. */
  lemma {:induction false} ActionsOnlyBuffer(st: CrawlState, actions: seq<CallbackAction>, lookup: string -> DomainLookup)
    ensures var r := ApplyActions(st, actions, lookup);
      && r.trace == st.trace && r.currentCrawlDepth == st.currentCrawlDepth
      && st.newCrawlRequests <= r.newCrawlRequests
      && (forall j :: |st.newCrawlRequests| <= j < |r.newCrawlRequests| ==>
            r.newCrawlRequests[j].crawlDepth == st.currentCrawlDepth)
      && (st.failure.Some? ==> r == st)
    decreases |actions|
  {
    if actions != [] && st.failure.None? {
      var next := ApplyAction(st, actions[0], lookup);
      if actions[0].VisitUrls? {
        VisitAllOnlyBuffers(st, actions[0].urls, lookup);
        VisitAllBuffersResolvablePrefix(st, actions[0].urls, lookup);
        AcceptedIsResolvablePrefix(actions[0].urls, lookup, st.currentCrawlDepth);
      }
      ActionsOnlyBuffer(next, actions[1..], lookup);
    }
  }

  /** A callback's calls add only requests at the depth of the request being
      processed, after what the buffer already held. */
  lemma CallbackOnlyBuffers(st: CrawlState, step: Step, lookup: string -> DomainLookup)
    ensures var called := AfterCallback(st, step, lookup);
      && called.trace == st.trace + [Dequeued(step.request)] + CallbackEvents(step)
      && called.currentCrawlDepth == step.request.crawlDepth
      && st.newCrawlRequests <= called.newCrawlRequests
      && (forall j :: |st.newCrawlRequests| <= j < |called.newCrawlRequests| ==>
            called.newCrawlRequests[j].crawlDepth == step.request.crawlDepth)
  {
    var taken := Taken(st, step);
    ActionsOnlyBuffer(taken.(trace := taken.trace + CallbackEvents(step)), step.callbackActions, lookup);
  }

  /** Requests visited from the unreachable-URL callback are not fed in that
      iteration: they stay buffered until a later iteration flushes the buffer. */
  lemma UnreachableDoesNotFlush(st: CrawlState, step: Step, lookup: string -> DomainLookup)
    requires step.head.None?
    ensures var r := Iteration(st, step, lookup);
      && r.trace == st.trace + [Dequeued(step.request), UnreachableUrl(step.request.url)]
      && st.newCrawlRequests <= r.newCrawlRequests
  {
    CallbackOnlyBuffers(st, step, lookup);
  }

  /** A redirect fires no callback and feeds exactly one request: the final URL, at the
      depth of the request that was redirected, the buffer left as it was. */
  lemma RedirectFeedsFinalUrl(st: CrawlState, step: Step, lookup: string -> DomainLookup)
    requires step.head.Some?
    requires FinalResponseUrl(step.head.value.redirectLocations, step.request.url) != step.request.url
    ensures var u := FinalResponseUrl(step.head.value.redirectLocations, step.request.url);
      var r := Iteration(st, step, lookup);
      && r.newCrawlRequests == st.newCrawlRequests
      && (lookup(u).Domain? ==>
            r.failure == st.failure
            && r.trace == st.trace + [Dequeued(step.request), Fed(CrawlRequest(u, lookup(u).name, step.request.crawlDepth))])
      && (lookup(u).Rejected? ==> r.failure == Some(RedirectLookupFailure(lookup(u).cause, lookup(u).message)))
      && u == step.head.value.redirectLocations[|step.head.value.redirectLocations| - 1]
  {
  }

  /** After a reachable, non-redirected response whose callback returns, the whole
      buffer (what earlier iterations left in it, then what this callback added) has
      been fed to the frontier in order, and the buffer is empty. */
  lemma FlushFeedsBufferInOrder(st: CrawlState, step: Step, lookup: string -> DomainLookup)
    requires step.head.Some?
    requires FinalResponseUrl(step.head.value.redirectLocations, step.request.url) == step.request.url
    ensures var called := AfterCallback(st, step, lookup);
      var r := Iteration(st, step, lookup);
      r.failure.None? ==>
        && r.newCrawlRequests == []
        && r.trace == st.trace + [Dequeued(step.request)] + CallbackEvents(step) + FedAll(called.newCrawlRequests)
        && st.newCrawlRequests <= called.newCrawlRequests
        && (forall j :: |st.newCrawlRequests| <= j < |called.newCrawlRequests| ==>
              called.newCrawlRequests[j].crawlDepth == step.request.crawlDepth)
  {
    CallbackOnlyBuffers(st, step, lookup);
  }

  /** An iteration that does not throw leaves the crawler at the depth of the request
      it took. */
  lemma IterationAdoptsDepth(st: CrawlState, step: Step, lookup: string -> DomainLookup)
    ensures var r := Iteration(st, step, lookup);
      r.failure.None? ==> r.currentCrawlDepth == step.request.crawlDepth
  {
    CallbackOnlyBuffers(st, step, lookup);
  }

  /** Once the flag is cleared or an exception is in flight, no further request is
      taken: a `stop()` from a callback ends the loop after the current iteration. */
  lemma HaltedLoopDoesNothing(st: CrawlState, steps: seq<Step>, lookup: string -> DomainLookup)
    requires Halted(st)
    ensures RunSteps(st, steps, lookup) == st
  {
  }

  /** A callback that stops the crawler twice throws on the second call. */
  lemma SecondStopThrows(st: CrawlState, lookup: string -> DomainLookup)
    requires !Halted(st)
    ensures ApplyActions(st, [StopCrawler, StopCrawler], lookup).failure == Some(IllegalState(NotStartedMessage))
  {
    assert ApplyActions(st, [StopCrawler, StopCrawler], lookup)
        == ApplyActions(StopCrawl(st), [StopCrawler], lookup);
  }

  // ---------------------------------------------------------------------------
  // The crawler object
  // ---------------------------------------------------------------------------

  class BaseCrawler {
    /** `config.getRunInBackground()`. */
    const runInBackground: bool
    /** `new URL(s)` and `getTopPrivateDomain`, as one input function. */
    const lookup: string -> DomainLookup
    var newCrawlRequests: seq<CrawlRequest>
    var isRunning: bool
    /** `crawlerThread != null`. */
    var hasCrawlerThread: bool
    var currentCrawlDepth: int
    var trace: seq<Event>

    /** The part of the object the loop specification works on. */
    function State(failure: Option<Failure>): CrawlState
      reads this
    {
      CrawlState(isRunning, newCrawlRequests, currentCrawlDepth, trace, failure)
    }

    /** A new crawler: not running, no thread, nothing buffered. */
    constructor (runInBackground: bool, lookup: string -> DomainLookup)
      ensures this.runInBackground == runInBackground && this.lookup == lookup
      ensures newCrawlRequests == [] && !isRunning && !hasCrawlerThread && currentCrawlDepth == 0 && trace == []
    {
      this.runInBackground := runInBackground;
      this.lookup := lookup;
      newCrawlRequests := [];
      isRunning := false;
      hasCrawlerThread := false;
      currentCrawlDepth := 0;
      trace := [];
    }

    /** `start()`: refused once a background thread exists; otherwise sets the flag and
        either hands the run to a new thread or runs it here. */
    method Start(steps: seq<Step>) returns (status: Outcome)
      modifies this
      ensures old(hasCrawlerThread) ==>
        status == Fail(IllegalState(AlreadyStartedMessage)) && unchanged(this)
      ensures !old(hasCrawlerThread) && runInBackground ==>
        status == Pass && hasCrawlerThread && isRunning
        && trace == old(trace) && newCrawlRequests == old(newCrawlRequests)
        && currentCrawlDepth == old(currentCrawlDepth)
      ensures !old(hasCrawlerThread) && !runInBackground ==>
        var r := RunSteps(CrawlState(true, old(newCrawlRequests), old(currentCrawlDepth),
                                     old(trace) + [Initialized, Begin], None), steps, lookup);
        && !hasCrawlerThread
        && State(r.failure) == r.(trace := r.trace + [DriverQuit] + (if r.failure.None? then [End] else []))
        && status == (if r.failure.Some? then Fail(r.failure.value) else Pass)
    {
      if hasCrawlerThread {
        return Fail(IllegalState(AlreadyStartedMessage));
      }
      isRunning := true;
      if runInBackground {
        hasCrawlerThread := true;
        status := Pass;
      } else {
        var failure := Run(steps);
        status := if failure.Some? then Fail(failure.value) else Pass;
      }
    }

    /** `stop()`. */
    method Stop() returns (status: Outcome)
      modifies this`isRunning
      ensures State(None) == StopCrawl(old(State(None))).(failure := None)
      ensures status == (if old(isRunning) then Pass else Fail(IllegalState(NotStartedMessage)))
    {
      if !isRunning {
        return Fail(IllegalState(NotStartedMessage));
      }
      isRunning := false;
      status := Pass;
    }

    /** `visitUrl(urlToVisit)`. */
    method VisitUrl(urlToVisit: string) returns (status: Outcome)
      modifies this`newCrawlRequests
      ensures var r := Visit(old(State(None)), urlToVisit, lookup);
        State(None) == r.(failure := None) && status == (if r.failure.Some? then Fail(r.failure.value) else Pass)
    {
      match lookup(urlToVisit)
      case Domain(topPrivateDomain) =>
        newCrawlRequests := newCrawlRequests + [CrawlRequest(urlToVisit, topPrivateDomain, currentCrawlDepth)];
        status := Pass;
      case Rejected(_, message) =>
        status := Fail(IllegalArgument(message));
    }

    /** `visitUrls(urlsToVisit)`. */
    method VisitUrls(urlsToVisit: seq<string>) returns (status: Outcome)
      modifies this`newCrawlRequests
      ensures var r := VisitAll(old(State(None)), urlsToVisit, lookup);
        State(None) == r.(failure := None) && status == (if r.failure.Some? then Fail(r.failure.value) else Pass)
    {
      status := Pass;
      var k := 0;
      while k < |urlsToVisit| && status.Pass?
        invariant 0 <= k <= |urlsToVisit|
        invariant VisitAll(old(State(None)), urlsToVisit, lookup)
                  == VisitAll(State(if status.Fail? then Some(status.error) else None), urlsToVisit[k..], lookup)
      {
        assert urlsToVisit[k..][1..] == urlsToVisit[k + 1..];
        status := VisitUrl(urlsToVisit[k]);
        k := k + 1;
      }
    }

    /** `run()`: set up, fire the begin callback, loop, and on every exit path quit the
        driver; the end callback fires only when no exception left the loop. */
    method Run(steps: seq<Step>) returns (failure: Option<Failure>)
      modifies this`newCrawlRequests, this`isRunning, this`currentCrawlDepth, this`trace
      ensures var r := RunSteps(CrawlState(old(isRunning), old(newCrawlRequests), old(currentCrawlDepth),
                                           old(trace) + [Initialized, Begin], None), steps, lookup);
        State(failure) == r.(trace := r.trace + [DriverQuit] + (if r.failure.None? then [End] else []))
    {
      trace := trace + [Initialized, Begin];
      failure := None;
      ghost var start := State(None);
      var i := 0;
      while isRunning && failure.None? && i < |steps|
        invariant 0 <= i <= |steps|
        invariant RunSteps(start, steps, lookup) == RunSteps(State(failure), steps[i..], lookup)
      {
        assert steps[i..][1..] == steps[i + 1..];
        failure := RunIteration(steps[i]);
        i := i + 1;
      }
      // finally
      trace := trace + [DriverQuit];
      if failure.None? {
        trace := trace + [End];
      }
    }

    /** One pass of the loop body. */
    method RunIteration(step: Step) returns (failure: Option<Failure>)
      requires isRunning
      modifies this`newCrawlRequests, this`isRunning, this`currentCrawlDepth, this`trace
      ensures State(failure) == Iteration(old(State(None)), step, lookup)
    {
      var currentRequest := step.request;
      var requestUrl := currentRequest.url;
      trace := trace + [Dequeued(currentRequest)];
      currentCrawlDepth := currentRequest.crawlDepth;
      ghost var taken := Taken(old(State(None)), step);
      if step.head.None? {
        trace := trace + [UnreachableUrl(requestUrl)];
        assert State(None) == taken.(trace := taken.trace + CallbackEvents(step));
        failure := RunCallbackActions(step.callbackActions);
        return;
      }
      var httpHeadResponse := step.head.value;
      var responseUrl := FinalResponseUrl(httpHeadResponse.redirectLocations, requestUrl);
      if responseUrl != requestUrl {
        match lookup(responseUrl) {
          case Domain(topPrivateDomain) =>
            trace := trace + [Fed(CrawlRequest(responseUrl, topPrivateDomain, currentCrawlDepth))];
            failure := None;
          case Rejected(cause, message) =>
            failure := Some(RedirectLookupFailure(cause, message));
        }
        return;
      }
      var contentType := httpHeadResponse.contentType;
      if contentType.Some? && Contains(contentType.value, TextHtml) {
        trace := trace + [BrowserGet(requestUrl)];
        if !step.timedOut {
          trace := trace + [BrowserOpen(requestUrl)];
        } else {
          trace := trace + [BrowserTimeout(requestUrl)];
        }
      } else {
        trace := trace + [NonHtmlResponse(requestUrl)];
      }
      assert State(None) == taken.(trace := taken.trace + CallbackEvents(step));
      failure := RunCallbackActions(step.callbackActions);
      if failure.None? {
        FeedNewCrawlRequests();
      }
    }

    /** The calls the fired callback makes; the first that throws ends the callback. */
    method RunCallbackActions(actions: seq<CallbackAction>) returns (failure: Option<Failure>)
      modifies this`newCrawlRequests, this`isRunning
      ensures State(failure) == ApplyActions(old(State(None)), actions, lookup)
    {
      failure := None;
      var k := 0;
      while k < |actions| && failure.None?
        invariant 0 <= k <= |actions|
        invariant ApplyActions(old(State(None)), actions, lookup) == ApplyActions(State(failure), actions[k..], lookup)
      {
        assert actions[k..][1..] == actions[k + 1..];
        var status;
        match actions[k] {
          case VisitUrl(u) =>
            status := VisitUrl(u);
          case VisitUrls(us) =>
            status := VisitUrls(us);
          case StopCrawler =>
            status := Stop();
        }
        if status.Fail? {
          failure := Some(status.error);
        }
        k := k + 1;
      }
    }

    /** Feed every buffered request to the frontier, in order, and clear the buffer. */
    method FeedNewCrawlRequests()
      modifies this`newCrawlRequests, this`trace
      ensures State(None) == Flush(old(State(None)))
    {
      var k := 0;
      while k < |newCrawlRequests|
        invariant 0 <= k <= |newCrawlRequests|
        invariant trace == old(trace) + FedAll(newCrawlRequests[..k])
        invariant newCrawlRequests == old(newCrawlRequests)
      {
        assert FedAll(newCrawlRequests[..k + 1]) == FedAll(newCrawlRequests[..k]) + [Fed(newCrawlRequests[k])];
        trace := trace + [Fed(newCrawlRequests[k])];
        k := k + 1;
      }
      assert newCrawlRequests[..k] == newCrawlRequests;
      newCrawlRequests := [];
    }
  }
}
