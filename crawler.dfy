/** The crawler of the `api` package: its lifecycle flags (stopped, stopping, may save
    state), the guarded operations on them, and the control loop that takes one
    candidate per iteration, sorts it into one outcome, lets the event callback act,
    and always runs one delay.

    The crawl frontier, the HTTP client and the browser are collaborators whose code is
    not part of this model. What the crawler does with them is recorded as a trace of
    events: a request fed to the frontier, a candidate taken from it, a callback fired,
    a delay slept. Everything they answer arrives as input, one `Step` per loop
    iteration; the frontier reports no further candidate once the steps run out. */
module Crawler {

  import opened Common
  import opened CrawlDelay
  import opened ResponseInspection
  import JavaStrings

  /** The user's serialisable metadata attached to a request (opaque to the crawler). */
  datatype Metadata = Metadata(payload: string)

  /** `CrawlRequest`, as far as the crawler reads it. */
  datatype CrawlRequest = CrawlRequest(requestUrl: Url, priority: int, metadata: Option<Metadata>)

  /** `CrawlCandidate`: the request the frontier hands out for processing. */
  datatype CrawlCandidate = CrawlCandidate(requestUrl: Url, priority: int, metadata: Option<Metadata>)

  /** What the browser reports after `webDriver.get`: a timeout, or the URL of the
      page it ended up on. */
  datatype BrowserLoad = TimedOut | Loaded(currentUrl: Url)

  /** A call an event callback makes back into the crawler: `crawl(request)` (the
      request may be null) or `stop()`. */
  datatype CallbackAction = CrawlCall(request: Option<CrawlRequest>) | StopCall

  /** The answers of the collaborators in one loop iteration: the candidate the frontier
      hands out, the HEAD exchange (`None` when it throws `IOException`), the browser's
      load result, the calls the fired callback makes, the value the delay mechanism
      works from, and whether the sleep is interrupted. */
  datatype Step = Step(
    candidate: CrawlCandidate,
    head: Option<HeadResponse>,
    browser: BrowserLoad,
    callbackActions: seq<CallbackAction>,
    delaySample: int,
    delayInterrupted: bool)

  /** What the crawler does to its collaborators and callbacks, in order. */
  datatype Event =
    | NewFrontier
    | StateRestored
    | SeleniumCookiesSynced
    | Started
    | Dequeued(candidate: CrawlCandidate)
    | Fed(request: CrawlRequest, isSeed: bool)
    | BrowserGet(url: Url)
    | HttpClientCookiesSynced
    | RequestError(candidate: CrawlCandidate)
    | RequestRedirect(candidate: CrawlCandidate, redirected: CrawlRequest)
    | PageLoad(candidate: CrawlCandidate)
    | PageLoadTimeout(candidate: CrawlCandidate)
    | NonHtmlContent(candidate: CrawlCandidate, mimeType: string)
    | Delay(millis: int, interrupted: bool)
    | Stopped
    | BrowserQuit

  const AlreadyRunningMessage: string := "The crawler is already running."
  const NullWebDriverMessage: string := "The webdriver cannot be null."
  const CannotSaveStateMessage: string :=
    "Cannot save state at this point. The crawler should be started at least once."
  const NotStartedMessage: string := "The crawler is not started."
  const AlreadyStoppingMessage: string := "The crawler is already stopping."
  const CrawlNotStartedMessage: string :=
    "The crawler is not started. Maybe you meant to add this request as a crawl seed?"
  const CrawlStoppingMessage: string := "Cannot add request when the crawler is stopping."
  const NullRequestMessage: string := "The request cannot be null."

  // ---------------------------------------------------------------------------
  // Guards
  // ---------------------------------------------------------------------------

  /** The checks of `crawl(request)`, in order: started, not stopping, request not null. */
  function CrawlGuard(isStopped: bool, isStopping: bool, request: Option<CrawlRequest>): (o: Outcome)
    ensures o.Pass? <==> !isStopped && !isStopping && request.Some?
    ensures isStopped ==> o == Fail(IllegalState(CrawlNotStartedMessage))
  {
    if isStopped then Fail(IllegalState(CrawlNotStartedMessage))
    else if isStopping then Fail(IllegalState(CrawlStoppingMessage))
    else if request.None? then Fail(NullPointer(NullRequestMessage))
    else Pass
  }

  /** The checks of `stop()`: started, and not already stopping. */
  function StopGuard(isStopped: bool, isStopping: bool): (o: Outcome)
    ensures o.Pass? <==> !isStopped && !isStopping
    ensures isStopping && !isStopped ==> o == Fail(IllegalState(AlreadyStoppingMessage))
  {
    if isStopped then Fail(IllegalState(NotStartedMessage))
    else if isStopping then Fail(IllegalState(AlreadyStoppingMessage))
    else Pass
  }

  /** The check of `saveState`. */
  function SaveStateGuard(canSaveState: bool): (o: Outcome)
    ensures o.Pass? <==> canSaveState
  {
    if canSaveState then Pass else Fail(IllegalState(CannotSaveStateMessage))
  }

  // ---------------------------------------------------------------------------
  // One iteration, as a specification
  // ---------------------------------------------------------------------------

  /** `handleRequestRedirect`'s request: the redirect target, with the candidate's
      priority and metadata. */
  function RedirectRequest(c: CrawlCandidate, redirectedUrl: Url): (r: CrawlRequest)
    ensures r.requestUrl == redirectedUrl
    ensures r.priority == c.priority && r.metadata == c.metadata
  {
    CrawlRequest(redirectedUrl, c.priority, c.metadata)
  }

  /** `handleRequestRedirect`: the redirected request is fed as a non-seed, then the
      redirect callback fires. */
  function RedirectEvents(c: CrawlCandidate, redirectedUrl: Url): seq<Event> {
    var r := RedirectRequest(c, redirectedUrl);
    [Fed(r, false), RequestRedirect(c, r)]
  }

  /** How an iteration ends up. */
  datatype CandidateOutcome =
    | RequestFailed
    | HeadRedirect(url: Url)
    | PageLoadTimedOut
    | JsRedirect(url: Url)
    | PageLoaded
    | NonHtml(mimeType: string)

  /** The outcomes for which the candidate is opened in the browser. */
  predicate OpensBrowser(o: CandidateOutcome) {
    o.PageLoadTimedOut? || o.JsRedirect? || o.PageLoaded?
  }

  /** The outcome of one iteration: a failed HEAD request is a request error; a HEAD
      exchange that ends on another URL is a redirect; a "text/html" response is opened
      in the browser, which times out, redirects by script, or loads the page; anything
      else is non-HTML content. */
  function Classify(step: Step): (o: CandidateOutcome)
    ensures o.RequestFailed? <==> step.head.None?
    ensures o.HeadRedirect? <==>
      step.head.Some? && FinalResponseUrl(step.head.value.redirectLocations, step.candidate.requestUrl)
                         != step.candidate.requestUrl
    ensures o.HeadRedirect? ==>
      o.url == FinalResponseUrl(step.head.value.redirectLocations, step.candidate.requestUrl)
    ensures OpensBrowser(o) <==>
      step.head.Some? && FinalResponseUrl(step.head.value.redirectLocations, step.candidate.requestUrl)
                         == step.candidate.requestUrl
      && ResponseMimeType(step.head.value) == TextHtml
    ensures OpensBrowser(o) ==>
      (o.PageLoadTimedOut? <==> step.browser.TimedOut?)
      && (o.JsRedirect? <==> step.browser.Loaded? && step.browser.currentUrl != step.candidate.requestUrl)
    ensures o.JsRedirect? ==> o.url == step.browser.currentUrl && o.url != step.candidate.requestUrl
    ensures o.NonHtml? ==> o.mimeType == ResponseMimeType(step.head.value) && o.mimeType != TextHtml
  {
    var url := step.candidate.requestUrl;
    match step.head
    case None => RequestFailed
    case Some(h) =>
      var responseUrl := FinalResponseUrl(h.redirectLocations, url);
      if responseUrl != url then HeadRedirect(responseUrl)
      else
        var mimeType := ResponseMimeType(h);
        if mimeType == TextHtml then
          match step.browser
          case TimedOut => PageLoadTimedOut
          case Loaded(loadedPageUrl) => if loadedPageUrl != url then JsRedirect(loadedPageUrl) else PageLoaded
        else NonHtml(mimeType)
  }

  /** For a response that was not redirected, `Classify` sorts the candidate as the code
      as written does wherever that code reads a MIME type: the browser is opened iff
      the MIME type is "text/html", and otherwise the non-HTML outcome carries it. On
      the one input the code cannot read, a header value of ';' only that the parser
      rejects, the code throws out of the loop, while `Classify`, working from the
      corrected MIME type, reports non-HTML content with the empty MIME type. */
  lemma ClassifyAgreesWithAsWritten(step: Step)
    requires step.head.Some?
    requires FinalResponseUrl(step.head.value.redirectLocations, step.candidate.requestUrl)
             == step.candidate.requestUrl
    ensures var mt := ResponseMimeTypeAsWritten(step.head.value);
      && (mt.Ok? ==> (OpensBrowser(Classify(step)) <==> mt.value == TextHtml))
      && (mt.Ok? && mt.value != TextHtml ==> Classify(step) == NonHtml(mt.value))
      && (mt.Err? ==> Classify(step) == NonHtml(""))
  {
    var h := step.head.value;
    CorrectedAgreesWithAsWritten(h);
    AsWrittenThrowsIff(h);
    if ResponseMimeTypeAsWritten(h).Err? {
      var s := h.contentType.value.value;
      assert s[0] == ';';
      assert JavaStrings.BeforeFirst(s, ';') == [];
      assert JavaStrings.Trim([]) == [];
    }
  }

  /** The events an outcome produces between taking the candidate and its callback's
      own calls. */
  function OutcomeEvents(c: CrawlCandidate, o: CandidateOutcome): seq<Event> {
    match o
    case RequestFailed => [RequestError(c)]
    case HeadRedirect(u) => RedirectEvents(c, u)
    case PageLoadTimedOut => [BrowserGet(c.requestUrl), HttpClientCookiesSynced, PageLoadTimeout(c)]
    case JsRedirect(u) => [BrowserGet(c.requestUrl), HttpClientCookiesSynced] + RedirectEvents(c, u)
    case PageLoaded => [BrowserGet(c.requestUrl), HttpClientCookiesSynced, PageLoad(c)]
    case NonHtml(m) => [NonHtmlContent(c, m)]
  }

  /** An event that is one of the five per-candidate callbacks. */
  predicate IsCallback(e: Event) {
    e.RequestError? || e.RequestRedirect? || e.PageLoad? || e.PageLoadTimeout? || e.NonHtmlContent?
  }

  predicate IsDequeue(e: Event) { e.Dequeued? }

  predicate IsDelay(e: Event) { e.Delay? }

  /** The number of events in `t` that satisfy `p`. */
  function Count(t: seq<Event>, p: Event -> bool): nat {
    if t == [] then 0 else Count(t[..|t| - 1], p) + (if p(t[|t| - 1]) then 1 else 0)
  }

  lemma {:induction false} CountAppend(a: seq<Event>, b: seq<Event>, p: Event -> bool)
    ensures Count(a + b, p) == Count(a, p) + Count(b, p)
    decreases |b|
  {
    if b == [] {
      assert a + b == a;
    } else {
      assert (a + b)[..|a + b| - 1] == a + b[..|b| - 1];
      CountAppend(a, b[..|b| - 1], p);
    }
  }

  /** `Count` read from the front. */
  lemma CountFront(t: seq<Event>, p: Event -> bool)
    requires t != []
    ensures Count(t, p) == (if p(t[0]) then 1 else 0) + Count(t[1..], p)
  {
    assert [t[0]][..0] == [];
    assert t == [t[0]] + t[1..];
    CountAppend([t[0]], t[1..], p);
  }

  /** `CountFront` for the three kinds of event the loop counts. */
  lemma CountFrontKinds(t: seq<Event>)
    requires t != []
    ensures Count(t, IsCallback) == (if IsCallback(t[0]) then 1 else 0) + Count(t[1..], IsCallback)
    ensures Count(t, IsDequeue) == (if IsDequeue(t[0]) then 1 else 0) + Count(t[1..], IsDequeue)
    ensures Count(t, IsDelay) == (if IsDelay(t[0]) then 1 else 0) + Count(t[1..], IsDelay)
  {
    CountFront(t, IsCallback);
    CountFront(t, IsDequeue);
    CountFront(t, IsDelay);
  }

  /** Each candidate fires exactly one callback, and the outcome events take no
      candidate and sleep no delay. */
  lemma OneCallbackPerOutcome(c: CrawlCandidate, o: CandidateOutcome)
    ensures Count(OutcomeEvents(c, o), IsCallback) == 1
    ensures Count(OutcomeEvents(c, o), IsDequeue) == 0 && Count(OutcomeEvents(c, o), IsDelay) == 0
  {
    var t := OutcomeEvents(c, o);
    assert 1 <= |t| <= 4;
    CountFrontKinds(t);
    var t1 := t[1..];
    if t1 != [] {
      CountFrontKinds(t1);
      var t2 := t1[1..];
      if t2 != [] {
        CountFrontKinds(t2);
        var t3 := t2[1..];
        if t3 != [] {
          CountFrontKinds(t3);
        }
      }
    }
  }

  /** The state the loop carries: the stopping flag, the trace, and the exception a
      callback's call threw, if any. */
  datatype RunState = RunState(isStopping: bool, trace: seq<Event>, failure: Option<Failure>)

  /** The loop condition is false, or an exception is propagating out of the loop. */
  predicate Halted(st: RunState) {
    st.isStopping || st.failure.Some?
  }

  /** One call a callback makes while the crawler is running. */
  function ApplyAction(st: RunState, a: CallbackAction): RunState {
    match a
    case CrawlCall(request) =>
      var o := CrawlGuard(false, st.isStopping, request);
      if o.Fail? then st.(failure := Some(o.error))
      else st.(trace := st.trace + [Fed(request.value, false)])
    case StopCall =>
      var o := StopGuard(false, st.isStopping);
      if o.Fail? then st.(failure := Some(o.error))
      else st.(isStopping := true)
  }

  /** The calls a callback makes, in order, up to the first one that throws. */
  function ApplyActions(st: RunState, actions: seq<CallbackAction>): RunState
    decreases |actions|
  {
    if actions == [] || st.failure.Some? then st
    else ApplyActions(ApplyAction(st, actions[0]), actions[1..])
  }

  /** One iteration of the loop, started with the loop condition true: take the
      candidate, produce its outcome's events, let the callback make its calls, and,
      unless one of them threw, sleep the delay; an interrupted sleep sets the
      stopping flag. */
  function Iteration(st: RunState, step: Step, m: CrawlDelayMechanism): RunState {
    var c := step.candidate;
    var processed := st.(trace := st.trace + [Dequeued(c)] + OutcomeEvents(c, Classify(step)));
    var called := ApplyActions(processed, step.callbackActions);
    if called.failure.Some? then called
    else called.(trace := called.trace + [Delay(GetDelay(m, step.delaySample), step.delayInterrupted)],
                 isStopping := called.isStopping || step.delayInterrupted)
  }

  /** The loop `while (!isStopping && crawlFrontier.hasNextCandidate())`, the frontier
      answering with `steps` in turn. */
  function RunSteps(st: RunState, steps: seq<Step>, m: CrawlDelayMechanism): RunState
    decreases |steps|
  {
    if steps == [] || Halted(st) then st
    else RunSteps(Iteration(st, steps[0], m), steps[1..], m)
  }

  /** `run()`: the start callback, the loop, and the stop callback when the loop ends
      without an exception. */
  function RunSpec(trace: seq<Event>, steps: seq<Step>, m: CrawlDelayMechanism): RunState {
    var st := RunSteps(RunState(false, trace + [Started], None), steps, m);
    if st.failure.None? then st.(trace := st.trace + [Stopped]) else st
  }

  // ---------------------------------------------------------------------------
  // Properties of the loop
  // ---------------------------------------------------------------------------

  /** A callback's calls only feed requests, as non-seeds, and never take a candidate
      or sleep. */
  lemma {:induction false} ActionsOnlyFeed(st: RunState, actions: seq<CallbackAction>)
    ensures var r := ApplyActions(st, actions);
      && st.trace <= r.trace
      && (forall i :: |st.trace| <= i < |r.trace| ==> r.trace[i].Fed? && !r.trace[i].isSeed)
      && (st.failure.Some? ==> r == st)
    decreases |actions|
  {
    if actions != [] && st.failure.None? {
      ActionsOnlyFeed(ApplyAction(st, actions[0]), actions[1..]);
    }
  }

  /** Events that are neither a candidate taken nor a delay slept. */
  lemma {:induction false} CountNeitherDequeueNorDelay(t: seq<Event>)
    requires forall i :: 0 <= i < |t| ==> !t[i].Dequeued? && !t[i].Delay?
    ensures Count(t, IsDequeue) == 0 && Count(t, IsDelay) == 0
    decreases |t|
  {
    if t != [] {
      CountNeitherDequeueNorDelay(t[..|t| - 1]);
    }
  }

  /** One iteration takes exactly one candidate, and sleeps exactly one delay unless a
      callback's call threw. */
  lemma IterationCounts(st: RunState, step: Step, m: CrawlDelayMechanism)
    requires st.failure.None?
    ensures var r := Iteration(st, step, m);
      && st.trace <= r.trace
      && Count(r.trace, IsDequeue) == Count(st.trace, IsDequeue) + 1
      && Count(r.trace, IsDelay) == Count(st.trace, IsDelay) + (if r.failure.Some? then 0 else 1)
  {
    var c := step.candidate;
    var out := OutcomeEvents(c, Classify(step));
    var processed := st.(trace := st.trace + [Dequeued(c)] + out);
    var called := ApplyActions(processed, step.callbackActions);
    ActionsOnlyFeed(processed, step.callbackActions);
    var fed := called.trace[|processed.trace|..];
    assert called.trace == processed.trace + fed;
    CountNeitherDequeueNorDelay(fed);
    OneCallbackPerOutcome(c, Classify(step));
    CountAppend(st.trace, [Dequeued(c)], IsDequeue);
    CountAppend(st.trace, [Dequeued(c)], IsDelay);
    CountAppend(st.trace + [Dequeued(c)], out, IsDequeue);
    CountAppend(st.trace + [Dequeued(c)], out, IsDelay);
    CountAppend(processed.trace, fed, IsDequeue);
    CountAppend(processed.trace, fed, IsDelay);
    var r := Iteration(st, step, m);
    if called.failure.None? {
      CountAppend(called.trace, [r.trace[|r.trace| - 1]], IsDequeue);
      CountAppend(called.trace, [r.trace[|r.trace| - 1]], IsDelay);
      assert r.trace == called.trace + [r.trace[|r.trace| - 1]];
    }
  }

  /** Over a whole loop, every candidate taken is followed by exactly one delay, except
      for the candidate whose callback threw, which ends the loop. */
  lemma {:induction false} OneDelayPerCandidate(st: RunState, steps: seq<Step>, m: CrawlDelayMechanism)
    requires st.failure.None?
    ensures var r := RunSteps(st, steps, m);
      && st.trace <= r.trace
      && Count(r.trace, IsDequeue) - Count(st.trace, IsDequeue)
         == Count(r.trace, IsDelay) - Count(st.trace, IsDelay) + (if r.failure.Some? then 1 else 0)
    decreases |steps|
  {
    if steps != [] && !Halted(st) {
      var next := Iteration(st, steps[0], m);
      IterationCounts(st, steps[0], m);
      if next.failure.None? {
        OneDelayPerCandidate(next, steps[1..], m);
      } else {
        assert RunSteps(next, steps[1..], m) == next;
      }
    }
  }

  /** The loop takes one candidate for every step until it halts: when it ends without
      halting, it has taken every candidate the frontier offered. */
  lemma {:induction false} AllStepsTakenUnlessHalted(st: RunState, steps: seq<Step>, m: CrawlDelayMechanism)
    requires !Halted(st)
    ensures var r := RunSteps(st, steps, m);
      !Halted(r) ==> Count(r.trace, IsDequeue) == Count(st.trace, IsDequeue) + |steps|
    decreases |steps|
  {
    if steps != [] {
      var next := Iteration(st, steps[0], m);
      IterationCounts(st, steps[0], m);
      if !Halted(next) {
        AllStepsTakenUnlessHalted(next, steps[1..], m);
      } else {
        assert RunSteps(next, steps[1..], m) == next;
      }
    }
  }

  /** Once halted, the loop takes no further candidate: an interrupted delay or a
      `stop()` from a callback ends the loop after the current iteration. */
  lemma HaltedLoopDoesNothing(st: RunState, steps: seq<Step>, m: CrawlDelayMechanism)
    requires Halted(st)
    ensures RunSteps(st, steps, m) == st
  {
  }

  /** An interrupted sleep sets the stopping flag, so the next candidate is never taken. */
  lemma InterruptedDelayStopsLoop(st: RunState, step: Step, rest: seq<Step>, m: CrawlDelayMechanism)
    requires !Halted(st) && step.delayInterrupted
    ensures var r := Iteration(st, step, m);
      Halted(r) && RunSteps(st, [step] + rest, m) == r
  {
    assert ([step] + rest)[1..] == rest;
  }

  /** A callback calling `stop()` twice throws on the second call: stopping is not
      idempotent. */
  lemma SecondStopThrows(st: RunState)
    requires !Halted(st)
    ensures ApplyActions(st, [StopCall, StopCall]).failure == Some(IllegalState(AlreadyStoppingMessage))
  {
    var once := ApplyAction(st, StopCall);
    assert ApplyActions(st, [StopCall, StopCall]) == ApplyActions(once, [StopCall]);
  }

  /** With the adaptive mechanism and ordered bounds, every delay the loop sleeps lies
      within the configured bounds. */
  lemma {:induction false} AdaptiveDelaysWithinBounds(st: RunState, steps: seq<Step>, config: CrawlerConfiguration)
    requires HasOrderedBounds(config)
    ensures var r := RunSteps(st, steps, AdaptiveMechanism(config));
      && st.trace <= r.trace
      && forall i :: |st.trace| <= i < |r.trace| && r.trace[i].Delay? ==>
           config.minimumCrawlDelayMillis <= r.trace[i].millis <= config.maximumCrawlDelayMillis
    decreases |steps|
  {
    var m := AdaptiveMechanism(config);
    if steps != [] && !Halted(st) {
      var step := steps[0];
      var c := step.candidate;
      var processed := st.(trace := st.trace + [Dequeued(c)] + OutcomeEvents(c, Classify(step)));
      ActionsOnlyFeed(processed, step.callbackActions);
      OneCallbackPerOutcome(c, Classify(step));
      var out := OutcomeEvents(c, Classify(step));
      forall i | 0 <= i < |out| ensures !out[i].Delay? {
        if out[i].Delay? {
          CountNoDelay(out, i);
        }
      }
      AdaptiveDelaysWithinBounds(Iteration(st, step, m), steps[1..], config);
    }
  }

  /** A trace with no delay counted holds no delay. */
  lemma {:induction false} CountNoDelay(t: seq<Event>, i: int)
    requires 0 <= i < |t| && t[i].Delay?
    ensures Count(t, IsDelay) > 0
    decreases |t|
  {
    if i < |t| - 1 {
      CountNoDelay(t[..|t| - 1], i);
    }
  }

  // ---------------------------------------------------------------------------
  // The crawler object
  // ---------------------------------------------------------------------------

  class BaseCrawler {
    var config: CrawlerConfiguration
    var delayMechanism: Option<CrawlDelayMechanism>
    /** `webDriver != null`. */
    var hasWebDriver: bool
    var isStopped: bool
    var isStopping: bool
    var canSaveState: bool
    /** Everything done to the frontier, the browser and the callbacks so far. */
    var trace: seq<Event>

    /** The flags' invariant: the crawler is stopping only while it runs, and a running
        crawler has a browser and a delay mechanism and may save its state. */
    ghost predicate Valid()
      reads this
    {
      && (isStopping ==> !isStopped)
      && (!isStopped ==> canSaveState && hasWebDriver && delayMechanism.Some?)
    }

    /** A new crawler is stopped, not stopping, and cannot save state. */
    constructor (config: CrawlerConfiguration)
      ensures Valid()
      ensures this.config == config && isStopped && !isStopping && !canSaveState
      ensures !hasWebDriver && delayMechanism.None? && trace == []
    {
      this.config := config;
      delayMechanism := None;
      hasWebDriver := false;
      isStopping := false;
      isStopped := true;
      canSaveState := false;
      trace := [];
    }

    /** `start(webDriver)`: a fresh crawl. */
    method Start(webDriverPresent: bool, steps: seq<Step>) returns (status: Outcome)
      requires Valid()
      modifies this
      ensures Valid() && isStopped && !isStopping
      ensures canSaveState == (old(canSaveState) || (old(isStopped) && webDriverPresent))
      ensures hasWebDriver == (old(hasWebDriver) || (old(isStopped) && webDriverPresent))
      ensures delayMechanism == (if old(isStopped) && webDriverPresent
                                 then Some(CreateCrawlDelayMechanism(config)) else old(delayMechanism))
      ensures old(isStopped) && webDriverPresent ==>
        var r := RunSpec(old(trace) + [NewFrontier], steps, CreateCrawlDelayMechanism(config));
        && trace == r.trace + [BrowserQuit]
        && status == (if r.failure.Some? then Fail(r.failure.value) else Pass)
      ensures !(old(isStopped) && webDriverPresent) ==>
        && status == (if !old(isStopped) then Fail(IllegalState(AlreadyRunningMessage))
                      else Fail(NullPointer(NullWebDriverMessage)))
        && trace == old(trace) + (if old(hasWebDriver) then [BrowserQuit] else [])
    {
      status := StartCrawl(webDriverPresent, false, steps);
    }

    /** `resumeState(webDriver, inStream)`: the configuration read back from the saved
        state replaces the current one, and the crawl resumes with the restored frontier. */
    method ResumeState(savedConfig: CrawlerConfiguration, webDriverPresent: bool, steps: seq<Step>)
      returns (status: Outcome)
      requires Valid()
      modifies this
      ensures Valid() && isStopped && !isStopping && config == savedConfig
      ensures canSaveState == (old(canSaveState) || (old(isStopped) && webDriverPresent))
      ensures hasWebDriver == (old(hasWebDriver) || (old(isStopped) && webDriverPresent))
      ensures delayMechanism == (if old(isStopped) && webDriverPresent
                                 then Some(CreateCrawlDelayMechanism(savedConfig)) else old(delayMechanism))
      ensures old(isStopped) && webDriverPresent ==>
        var r := RunSpec(old(trace) + [StateRestored, SeleniumCookiesSynced], steps,
                         CreateCrawlDelayMechanism(savedConfig));
        && trace == r.trace + [BrowserQuit]
        && status == (if r.failure.Some? then Fail(r.failure.value) else Pass)
      ensures !(old(isStopped) && webDriverPresent) ==>
        && status == (if !old(isStopped) then Fail(IllegalState(AlreadyRunningMessage))
                      else Fail(NullPointer(NullWebDriverMessage)))
        && trace == old(trace) + [StateRestored] + (if old(hasWebDriver) then [BrowserQuit] else [])
    {
      config := savedConfig;
      assert trace + [StateRestored] + [SeleniumCookiesSynced] == trace + [StateRestored, SeleniumCookiesSynced];
      trace := trace + [StateRestored];
      status := StartCrawl(webDriverPresent, true, steps);
    }

    /** The private `start(webDriver, isResuming)`: check the flags and the browser,
        set up, run, and on every exit path quit the browser (if any) and leave the
        crawler stopped and not stopping. */
    method StartCrawl(webDriverPresent: bool, isResuming: bool, steps: seq<Step>) returns (status: Outcome)
      requires Valid()
      modifies this
      ensures Valid() && isStopped && !isStopping && config == old(config)
      ensures canSaveState == (old(canSaveState) || (old(isStopped) && webDriverPresent))
      ensures hasWebDriver == (old(hasWebDriver) || (old(isStopped) && webDriverPresent))
      ensures delayMechanism == (if old(isStopped) && webDriverPresent
                                 then Some(CreateCrawlDelayMechanism(config)) else old(delayMechanism))
      ensures old(isStopped) && webDriverPresent ==>
        var r := RunSpec(old(trace) + [if isResuming then SeleniumCookiesSynced else NewFrontier], steps,
                         CreateCrawlDelayMechanism(config));
        && trace == r.trace + [BrowserQuit]
        && status == (if r.failure.Some? then Fail(r.failure.value) else Pass)
      ensures !(old(isStopped) && webDriverPresent) ==>
        && status == (if !old(isStopped) then Fail(IllegalState(AlreadyRunningMessage))
                      else Fail(NullPointer(NullWebDriverMessage)))
        && trace == old(trace) + (if old(hasWebDriver) then [BrowserQuit] else [])
    {
      if !isStopped {
        status := Fail(IllegalState(AlreadyRunningMessage));
      } else if !webDriverPresent {
        status := Fail(NullPointer(NullWebDriverMessage));
      } else {
        hasWebDriver := true;
        if isResuming {
          trace := trace + [SeleniumCookiesSynced];
        } else {
          trace := trace + [NewFrontier];
        }
        delayMechanism := Some(CreateCrawlDelayMechanism(config));
        isStopped := false;
        canSaveState := true;
        var failure := Run(steps);
        status := if failure.Some? then Fail(failure.value) else Pass;
      }
      // finally
      if hasWebDriver {
        trace := trace + [BrowserQuit];
      }
      isStopping := false;
      isStopped := true;
    }

    /** `saveState`: allowed once a start has got as far as setting `canSaveState`.
        Serialising the state is not part of this model. */
    method SaveState() returns (status: Outcome)
      ensures status.Pass? <==> canSaveState
      ensures status.Fail? ==> status.error == IllegalState(CannotSaveStateMessage)
    {
      if !canSaveState {
        status := Fail(IllegalState(CannotSaveStateMessage));
      } else {
        status := Pass;
      }
    }

    /** `stop()`: only a started crawler that is not yet stopping can be stopped, and
        stopping only raises the flag the loop checks. */
    method Stop() returns (status: Outcome)
      requires Valid()
      modifies this`isStopping
      ensures Valid()
      ensures status == StopGuard(old(isStopped), old(isStopping))
      ensures isStopping == (old(isStopping) || status.Pass?)
    {
      if isStopped {
        status := Fail(IllegalState(NotStartedMessage));
      } else if isStopping {
        status := Fail(IllegalState(AlreadyStoppingMessage));
      } else {
        isStopping := true;
        status := Pass;
      }
    }

    /** `crawl(request)`: a running crawler that is not stopping feeds the request to the
        frontier as a non-seed. */
    method Crawl(request: Option<CrawlRequest>) returns (status: Outcome)
      modifies this`trace
      ensures status == CrawlGuard(isStopped, isStopping, request)
      ensures trace == if status.Pass? then old(trace) + [Fed(request.value, false)] else old(trace)
    {
      if isStopped {
        status := Fail(IllegalState(CrawlNotStartedMessage));
      } else if isStopping {
        status := Fail(IllegalState(CrawlStoppingMessage));
      } else if request.None? {
        status := Fail(NullPointer(NullRequestMessage));
      } else {
        trace := trace + [Fed(request.value, false)];
        status := Pass;
      }
    }

    /** `crawl(requests)`: `crawl` on each element in list order, up to the first that
        throws. */
    method CrawlAll(requests: seq<Option<CrawlRequest>>) returns (status: Outcome)
      modifies this`trace
      ensures var r := CrawlEach(isStopped, isStopping, requests);
        status == r.status && trace == old(trace) + r.fed
    {
      var i := 0;
      status := Pass;
      ghost var fed: seq<Event> := [];
      while i < |requests| && status.Pass?
        invariant 0 <= i <= |requests|
        invariant trace == old(trace) + fed
        invariant status.Pass? ==>
          CrawlEach(isStopped, isStopping, requests) == AfterFed(fed, CrawlEach(isStopped, isStopping, requests[i..]))
        invariant status.Fail? ==> CrawlEach(isStopped, isStopping, requests) == CrawlAllResult(status, fed)
      {
        ghost var here := CrawlEach(isStopped, isStopping, requests[i..]);
        ghost var rest := CrawlEach(isStopped, isStopping, requests[i + 1..]);
        assert requests[i..][1..] == requests[i + 1..];
        status := Crawl(requests[i]);
        if status.Pass? {
          assert here == AfterFed([Fed(requests[i].value, false)], rest);
          AfterFedTwice(fed, [Fed(requests[i].value, false)], rest);
          fed := fed + [Fed(requests[i].value, false)];
        } else {
          assert here == CrawlAllResult(status, []);
          assert fed + [] == fed;
        }
        i := i + 1;
      }
      if status.Pass? {
        assert requests[i..] == [];
        assert fed + [] == fed;
      }
    }

    /** `run()`. */
    method Run(steps: seq<Step>) returns (failure: Option<Failure>)
      requires Valid() && !isStopped && !isStopping
      modifies this`trace, this`isStopping
      ensures Valid()
      ensures var r := RunSpec(old(trace), steps, delayMechanism.value);
        r == RunState(isStopping, trace, failure)
    {
      trace := trace + [Started];
      failure := None;
      ghost var start := RunState(false, trace, None);
      var i := 0;
      while !isStopping && failure.None? && i < |steps|
        invariant 0 <= i <= |steps|
        invariant Valid()
        invariant RunSteps(start, steps, delayMechanism.value)
                  == RunSteps(RunState(isStopping, trace, failure), steps[i..], delayMechanism.value)
      {
        assert steps[i..][1..] == steps[i + 1..];
        failure := RunIteration(steps[i]);
        i := i + 1;
      }
      if failure.None? {
        trace := trace + [Stopped];
      }
    }

    /** One pass of the loop body. */
    method RunIteration(step: Step) returns (failure: Option<Failure>)
      requires Valid() && !isStopped && !isStopping
      modifies this`trace, this`isStopping
      ensures Valid()
      ensures RunState(isStopping, trace, failure)
              == Iteration(RunState(false, old(trace), None), step, delayMechanism.value)
    {
      var candidate := step.candidate;
      var candidateUrl := candidate.requestUrl;
      trace := trace + [Dequeued(candidate)];
      if step.head.None? {
        trace := trace + [RequestError(candidate)];
      } else {
        var httpHeadResponse := step.head.value;
        var responseUrl := FinalResponseUrl(httpHeadResponse.redirectLocations, candidateUrl);
        if responseUrl == candidateUrl {
          var responseMimeType := ResponseMimeType(httpHeadResponse);
          if responseMimeType == TextHtml {
            var isTimedOut := step.browser.TimedOut?;
            trace := trace + [BrowserGet(candidateUrl), HttpClientCookiesSynced];
            if isTimedOut {
              trace := trace + [PageLoadTimeout(candidate)];
            } else {
              var loadedPageUrl := step.browser.currentUrl;
              if loadedPageUrl != candidateUrl {
                HandleRequestRedirect(candidate, loadedPageUrl);
              } else {
                trace := trace + [PageLoad(candidate)];
              }
            }
          } else {
            trace := trace + [NonHtmlContent(candidate, responseMimeType)];
          }
        } else {
          HandleRequestRedirect(candidate, responseUrl);
        }
      }
      assert trace == old(trace) + [Dequeued(candidate)] + OutcomeEvents(candidate, Classify(step));
      failure := RunCallbackActions(step.callbackActions);
      if failure.None? {
        PerformDelay(step.delaySample, step.delayInterrupted);
      }
    }

    /** `handleRequestRedirect`. */
    method HandleRequestRedirect(candidate: CrawlCandidate, redirectedUrl: Url)
      modifies this`trace
      ensures trace == old(trace) + RedirectEvents(candidate, redirectedUrl)
    {
      var redirectedRequest := CrawlRequest(redirectedUrl, candidate.priority, candidate.metadata);
      trace := trace + [Fed(redirectedRequest, false)];
      trace := trace + [RequestRedirect(candidate, redirectedRequest)];
    }

    /** The calls the fired callback makes, each through `crawl` or `stop`; the first
        that throws ends the callback and the exception leaves the loop. */
    method RunCallbackActions(actions: seq<CallbackAction>) returns (failure: Option<Failure>)
      requires Valid() && !isStopped
      modifies this`trace, this`isStopping
      ensures Valid()
      ensures RunState(isStopping, trace, failure)
              == ApplyActions(RunState(old(isStopping), old(trace), None), actions)
    {
      failure := None;
      var k := 0;
      while k < |actions| && failure.None?
        invariant 0 <= k <= |actions|
        invariant Valid() && !isStopped
        invariant ApplyActions(RunState(old(isStopping), old(trace), None), actions)
                  == ApplyActions(RunState(isStopping, trace, failure), actions[k..])
      {
        assert actions[k..][1..] == actions[k + 1..];
        var status;
        match actions[k] {
          case CrawlCall(request) =>
            status := Crawl(request);
          case StopCall =>
            status := Stop();
        }
        if status.Fail? {
          failure := Some(status.error);
        }
        k := k + 1;
      }
    }

    /** `performDelay`: sleep for the mechanism's delay; an interrupted sleep sets the
        stopping flag instead of throwing. */
    method PerformDelay(delaySample: int, interrupted: bool)
      requires Valid() && !isStopped
      modifies this`trace, this`isStopping
      ensures Valid()
      ensures trace == old(trace) + [Delay(GetDelay(delayMechanism.value, delaySample), interrupted)]
      ensures isStopping == (old(isStopping) || interrupted)
    {
      trace := trace + [Delay(GetDelay(delayMechanism.value, delaySample), interrupted)];
      if interrupted {
        isStopping := true;
      }
    }
  }

  /** The requests of `requests` before its first null. */
  function NonNullPrefix(requests: seq<Option<CrawlRequest>>): (r: seq<CrawlRequest>)
    ensures |r| <= |requests|
    ensures forall j :: 0 <= j < |r| ==> requests[j] == Some(r[j])
    ensures |r| < |requests| ==> requests[|r|].None?
  {
    if requests == [] || requests[0].None? then [] else [requests[0].value] + NonNullPrefix(requests[1..])
  }

  /** The frontier calls `crawl` makes for each request. */
  function FedEvents(requests: seq<CrawlRequest>): (t: seq<Event>)
    ensures |t| == |requests|
    ensures forall j :: 0 <= j < |t| ==> t[j] == Fed(requests[j], false)
  {
    seq(|requests|, j requires 0 <= j < |requests| => Fed(requests[j], false))
  }

  /** What `crawl(requests)` returns or throws, and the requests it feeds. */
  datatype CrawlAllResult = CrawlAllResult(status: Outcome, fed: seq<Event>)

  /** `r` with `fed` fed before its own requests. */
  function AfterFed(fed: seq<Event>, r: CrawlAllResult): CrawlAllResult {
    r.(fed := fed + r.fed)
  }

  lemma AfterFedTwice(a: seq<Event>, b: seq<Event>, r: CrawlAllResult)
    ensures AfterFed(a, AfterFed(b, r)) == AfterFed(a + b, r)
  {
    assert a + (b + r.fed) == (a + b) + r.fed;
  }

  /** `crawl` on each element in list order, up to the first that throws. */
  function CrawlEach(isStopped: bool, isStopping: bool, requests: seq<Option<CrawlRequest>>): CrawlAllResult
    decreases |requests|
  {
    if requests == [] then CrawlAllResult(Pass, [])
    else
      var o := CrawlGuard(isStopped, isStopping, requests[0]);
      if o.Fail? then CrawlAllResult(o, [])
      else
        AfterFed([Fed(requests[0].value, false)], CrawlEach(isStopped, isStopping, requests[1..]))
  }

  /** `crawl(requests)` on a stopped or stopping crawler throws at the first element
      and feeds nothing; on a running one it feeds, as non-seeds and in order, the
      requests before the first null, and throws exactly when there is a null. */
  lemma {:induction false} CrawlEachFeedsNonNullPrefix(isStopped: bool, isStopping: bool,
                                                       requests: seq<Option<CrawlRequest>>)
    ensures var r := CrawlEach(isStopped, isStopping, requests);
      && (requests == [] ==> r == CrawlAllResult(Pass, []))
      && (requests != [] && (isStopped || isStopping) ==>
            r == CrawlAllResult(CrawlGuard(isStopped, isStopping, requests[0]), []))
      && (!isStopped && !isStopping ==>
            && r.fed == FedEvents(NonNullPrefix(requests))
            && (r.status.Pass? <==> |NonNullPrefix(requests)| == |requests|)
            && (r.status.Fail? ==> r.status == Fail(NullPointer(NullRequestMessage))))
    decreases |requests|
  {
    if requests != [] && !isStopped && !isStopping && requests[0].Some? {
      CrawlEachFeedsNonNullPrefix(isStopped, isStopping, requests[1..]);
      assert NonNullPrefix(requests) == [requests[0].value] + NonNullPrefix(requests[1..]);
      assert FedEvents(NonNullPrefix(requests))
          == [Fed(requests[0].value, false)] + FedEvents(NonNullPrefix(requests[1..]));
    }
  }
}
