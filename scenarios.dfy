/** Concrete scenarios: the four cache situations exercised by the repository's tests of
    the splicing routine, the tests' timestamp and average values, and small aggregation
    examples of our own. Day 18993 is 2022-01-01. */
module Scenarios {
  import opened Wrappers
  import opened Lists
  import opened Views
  import opened Averages
  import opened Utils

  const Jan1: Day := 18993

  /** The three-day cache of the tests (there starting on 2022-01-01, here on any day `d`),
      with its per-country values left open. */
  predicate IsTestCache(c: seq<DailyRecord>, d: Day)
  {
    |c| == 3 && c[0].name == d && c[1].name == d + 1 && c[2].name == d + 2
  }

  /** `convert_to_timestamp("2022-01-01")` is 1640995200, and one day later 1641081600. */
  lemma TimestampExamples()
    ensures Timestamp(Jan1) == 1640995200 && Timestamp(Jan1 + 1) == 1641081600
  {
  }

  /** The whole cache requested: the cache itself. */
  lemma WholeCacheScenario(c: seq<DailyRecord>, d: Day, f: (Day, Day) -> seq<DailyRecord>)
    requires IsTestCache(c, d)
    ensures DnsDataLine(c, d, d + 2, f) == Success(c)
  {
    assert WellFormedCache(c);
    CacheHitCorrect(c, d, d + 2, f);
    assert c[0..3] == c;
  }

  /** One day past the cache: the cache, then the fallback's record for that day. */
  lemma DayAfterScenario(c: seq<DailyRecord>, d: Day, f: (Day, Day) -> seq<DailyRecord>, m: map<string, real>)
    requires IsTestCache(c, d)
    requires f(d + 2, d + 3) == [DailyRecord(d + 2, m), DailyRecord(d + 3, m)]
    ensures DnsDataLine(c, d, d + 3, f) == Success(c + [DailyRecord(d + 3, m)])
  {
    assert WellFormedCache(c);
    CachedIndex(c, d);
    StartCachedEndBeyond(c, d, d + 3, f, 0);
    assert c[0..] == c;
  }

  /** One day before the cache: the fallback's records for that day and for the cache's
      first day, then the rest of the cache. (The test expects the cache's own first
      record; the two agree because that record carries the fallback's values there.) */
  lemma DayBeforeScenario(c: seq<DailyRecord>, d: Day, f: (Day, Day) -> seq<DailyRecord>, m: map<string, real>)
    requires IsTestCache(c, d)
    requires f(d - 1, d) == [DailyRecord(d - 1, m), DailyRecord(d, m)]
    ensures DnsDataLine(c, d - 1, d + 2, f) == Success([DailyRecord(d - 1, m), DailyRecord(d, m)] + c[1..])
  {
    assert WellFormedCache(c);
    CachedIndex(c, d + 2);
    StartBeforeEndCached(c, d - 1, d + 2, f, 2);
    assert c[1..3] == c[1..];
  }

  /** One day on both sides: the fallback recomputes the whole range and the cached
      values are not used. */
  lemma BothSidesScenario(c: seq<DailyRecord>, d: Day, f: (Day, Day) -> seq<DailyRecord>)
    requires IsTestCache(c, d)
    ensures DnsDataLine(c, d - 1, d + 3, f) == Success(f(d - 1, d + 3))
  {
    OtherwiseRecomputed(c, d - 1, d + 3, f);
  }

  /** `compute_average` on the repository's test inputs. */
  lemma AverageExamples()
    ensures Average([1.0, 2.0, 3.0, 4.0, 5.0]) == 3.0
    ensures Average([1.0, 1.0, 1.0, 1.0, 1.0]) == 1.0
    ensures Average([]) == 0.0
  {
  }

  /** A zero and a `None` sample are dropped from a probe's average. */
  lemma DroppedSamplesExample(g: Option<Geolocation>)
    ensures ProbeAverage(ProbeInfo(1, [Some(10.0), Some(0.0), None, Some(50.0)], g)) == 30.0
  {
    var xs: seq<Sample> := [Some(10.0), Some(0.0), None, Some(50.0)];
    assert Truthy(xs[3..]) == [50.0];
    assert Truthy(xs[2..]) == [50.0];
    assert Truthy(xs[1..]) == [50.0];
    assert Truthy(xs) == [10.0, 50.0];
    var ys := [10.0, 50.0];
    assert Sum(ys[1..]) == 50.0;
    assert Sum(ys) == 60.0;
  }

  /** A `-1` sample is not dropped: it enters the probe's average. */
  lemma SentinelKeptExample(g: Option<Geolocation>)
    ensures ProbeAverage(ProbeInfo(1, [Some(10.0), Some(20.0), Some(-1.0), Some(30.0)], g)) == 14.75
  {
    var xs: seq<Sample> := [Some(10.0), Some(20.0), Some(-1.0), Some(30.0)];
    assert Truthy(xs[3..]) == [30.0];
    assert Truthy(xs[2..]) == [-1.0, 30.0];
    assert Truthy(xs[1..]) == [20.0, -1.0, 30.0];
    assert Truthy(xs) == [10.0, 20.0, -1.0, 30.0];
    var ys := [10.0, 20.0, -1.0, 30.0];
    assert Sum(ys[3..]) == 30.0;
    assert Sum(ys[2..]) == 29.0;
    assert Sum(ys[1..]) == 49.0;
    assert Sum(ys) == 59.0;
  }

  /** The probes of the example below: three in France, the last with no usable sample. */
  predicate IsFranceExample(results: seq<ProbeInfo>)
  {
    var fr := Some(Geolocation(Some("FR")));
    results == [ ProbeInfo(1, [Some(10.0), Some(20.0), Some(30.0)], fr),
                 ProbeInfo(2, [Some(40.0)], fr),
                 ProbeInfo(3, [None], fr) ]
  }

  lemma ThreeSampleProbe(p: ProbeInfo)
    requires p.rttResults == [Some(10.0), Some(20.0), Some(30.0)]
    ensures ProbeAverage(p) == 20.0
  {
    var xs := p.rttResults;
    assert Truthy(xs[2..]) == [30.0];
    assert Truthy(xs[1..]) == [20.0, 30.0];
    assert Truthy(xs) == [10.0, 20.0, 30.0];
    var ys := [10.0, 20.0, 30.0];
    assert Sum(ys[2..]) == 30.0;
    assert Sum(ys[1..]) == 50.0;
    assert Sum(ys) == 60.0;
  }

  lemma FranceProbeAverages(results: seq<ProbeInfo>)
    requires IsFranceExample(results)
    ensures ProbeAveragesIn(results, Some("FR")) == [20.0, 40.0, 0.0]
  {
    ThreeSampleProbe(results[0]);
    assert Truthy(results[1].rttResults) == [40.0];
    assert ProbeAverage(results[1]) == 40.0;
    assert Truthy(results[2].rttResults) == [];
    assert ProbeAverage(results[2]) == 0.0;
    var c := Some("FR");
    assert ProbeAveragesIn(results[2..], c) == [0.0];
    assert ProbeAveragesIn(results[1..], c) == [40.0, 0.0];
  }

  lemma FranceCountryAverage()
    ensures Average(NonZero([20.0, 40.0, 0.0])) == 30.0
  {
    var zs := [20.0, 40.0, 0.0];
    assert NonZero(zs[2..]) == [];
    assert NonZero(zs[1..]) == [40.0];
    assert NonZero(zs) == [20.0, 40.0];
    assert Sum([20.0, 40.0][1..]) == 40.0;
    assert Sum([20.0, 40.0]) == 60.0;
  }

  lemma FranceLocated(results: seq<ProbeInfo>)
    requires IsFranceExample(results)
    ensures |results| == 3
    ensures forall i :: 0 <= i < |results| ==> results[i].geolocation == Some(Geolocation(Some("FR")))
  {
  }

  /** Two probes in France, one with three samples and one with a single sample, and a
      third whose samples all dropped out: the country's value is the plain mean of the
      first two probes' averages (30, not the pooled 25), and the third is skipped. */
  lemma UnweightedCountryExample(db: CountryDatabase, results: seq<ProbeInfo>)
    requires db(Some("FR")) == Found(Country("FR", "FRA"))
    requires IsFranceExample(results)
    ensures AverageByCountry(results, db) == Success(map[Some("FRA") := 30.0])
  {
    FranceProbeAverages(results);
    FranceCountryAverage();
    FranceLocated(results);
    AverageByCountrySingle(results, db, Some("FR"), "FRA");
  }
}
