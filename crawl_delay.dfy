/** Crawl delay: the strategy switch that picks a delay mechanism from the crawler
    configuration, and the adaptive mechanism's rule of clamping the observed page-load
    time into the configured minimum and maximum delay. */
module CrawlDelay {

  /** `CrawlDelayStrategy`: the three strategies a configuration can name. */
  datatype CrawlDelayStrategy = Fixed | Random | Adaptive

  /** The parts of `CrawlerConfiguration` that the delay subsystem reads: the chosen
      strategy and the minimum and maximum crawl delay, in milliseconds. */
  datatype CrawlerConfiguration = CrawlerConfiguration(
    crawlDelayStrategy: CrawlDelayStrategy,
    minimumCrawlDelayMillis: int,
    maximumCrawlDelayMillis: int)

  /** A configuration whose delay bounds are ordered, as in every configuration the
      adaptive mechanism is tested with. */
  predicate HasOrderedBounds(config: CrawlerConfiguration) {
    config.minimumCrawlDelayMillis <= config.maximumCrawlDelayMillis
  }

  /** A constructed delay mechanism; each one is built from the configuration. */
  datatype CrawlDelayMechanism =
    | FixedMechanism(config: CrawlerConfiguration)
    | RandomMechanism(config: CrawlerConfiguration)
    | AdaptiveMechanism(config: CrawlerConfiguration)

  /** The strategy a mechanism implements. */
  function StrategyOf(m: CrawlDelayMechanism): CrawlDelayStrategy {
    match m
    case FixedMechanism(_) => Fixed
    case RandomMechanism(_) => Random
    case AdaptiveMechanism(_) => Adaptive
  }

  /** `createCrawlDelayMechanism`: the mechanism implementing the configured strategy,
      built from that configuration. The switch covers every strategy, so the
      "Unsupported crawl delay strategy" exception cannot arise. */
  function CreateCrawlDelayMechanism(config: CrawlerConfiguration): (m: CrawlDelayMechanism)
    ensures StrategyOf(m) == config.crawlDelayStrategy
    ensures m.config == config
  {
    match config.crawlDelayStrategy
    case Fixed => FixedMechanism(config)
    case Random => RandomMechanism(config)
    case Adaptive => AdaptiveMechanism(config)
  }

  /** `AdaptiveCrawlDelayMechanism.getDelay`: the page-load time the browser script
      reports, clamped into the configured bounds. It reads nothing but the observed
      value and the two bounds. */
  function AdaptiveDelay(config: CrawlerConfiguration, observed: int): (d: int)
    ensures HasOrderedBounds(config) ==>
      config.minimumCrawlDelayMillis <= d <= config.maximumCrawlDelayMillis
    ensures config.minimumCrawlDelayMillis <= observed <= config.maximumCrawlDelayMillis ==> d == observed
  {
    if observed < config.minimumCrawlDelayMillis then config.minimumCrawlDelayMillis
    else if observed > config.maximumCrawlDelayMillis then config.maximumCrawlDelayMillis
    else observed
  }

  /** Distance between two delays. */
  function Distance(a: int, b: int): nat {
    if a <= b then b - a else a - b
  }

  /** The adaptive delay is the point of [minimum, maximum] nearest to the observed
      value, and the only such point. */
  lemma AdaptiveDelayIsNearest(config: CrawlerConfiguration, observed: int, v: int)
    requires HasOrderedBounds(config)
    requires config.minimumCrawlDelayMillis <= v <= config.maximumCrawlDelayMillis
    ensures Distance(AdaptiveDelay(config, observed), observed) <= Distance(v, observed)
    ensures Distance(AdaptiveDelay(config, observed), observed) == Distance(v, observed) ==>
              v == AdaptiveDelay(config, observed)
  {
  }

  /** Clamping an already clamped delay changes nothing. */
  lemma AdaptiveDelayIdempotent(config: CrawlerConfiguration, observed: int)
    requires HasOrderedBounds(config)
    ensures AdaptiveDelay(config, AdaptiveDelay(config, observed)) == AdaptiveDelay(config, observed)
  {
  }

  /** A later page load never yields a shorter delay. */
  lemma AdaptiveDelayMonotonic(config: CrawlerConfiguration, a: int, b: int)
    requires a <= b
    ensures AdaptiveDelay(config, a) <= AdaptiveDelay(config, b) || !HasOrderedBounds(config)
  {
  }

  /** The configuration of the adaptive mechanism's test: a one-second minimum and a
      three-second maximum. */
  const TestConfiguration := CrawlerConfiguration(Adaptive, 1000, 3000)

  /** The three asserted cases: 0 ms gives the minimum, 4000 ms gives the maximum,
      and 2000 ms is returned unchanged. */
  lemma AdaptiveDelayTestCases()
    ensures AdaptiveDelay(TestConfiguration, 0) == TestConfiguration.minimumCrawlDelayMillis
    ensures AdaptiveDelay(TestConfiguration, 4000) == TestConfiguration.maximumCrawlDelayMillis
    ensures AdaptiveDelay(TestConfiguration, 2000) == 2000
  {
  }

  /** `getDelay` of a constructed mechanism. The fixed and random mechanisms are not
      part of this model: the value they produce arrives as `sample`. For the adaptive
      mechanism `sample` is the page-load time the browser script reports. */
  function GetDelay(m: CrawlDelayMechanism, sample: int): (d: int)
    ensures m.AdaptiveMechanism? && HasOrderedBounds(m.config) ==>
      m.config.minimumCrawlDelayMillis <= d <= m.config.maximumCrawlDelayMillis
  {
    match m
    case AdaptiveMechanism(config) => AdaptiveDelay(config, sample)
    case _ => sample
  }
}
