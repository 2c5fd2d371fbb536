/** The DNS round-trip-time pipeline of `utils.py`: per-probe records built from parsed
    measurement results, `merge_measurement_results` folding several measurements into
    one record per probe, `compute_average_by_country` turning the records into one value
    per country, and `check_dns_measurements` driving the two over a day's measurements.
    The RIPE Atlas fetches are parameters of the model. */
module Utils {
  import opened Wrappers
  import opened Lists
  import opened Averages

  type ProbeId = int
  type MeasurementId = int

  /** One `rtt_results` entry: a response time, or Python `None`. */
  type Sample = Option<real>

  /** The probe description the RIPE Atlas probes endpoint returns; only its
      `country_code`, possibly `None`, is read. */
  datatype Geolocation = Geolocation(countryCode: Option<string>)

  /** A probe record: `{"probe_id", "rtt_results", "geolocation"}`. `geolocation` is `None`
      when the probes endpoint returned no description for the probe. */
  datatype ProbeInfo = ProbeInfo(probeId: ProbeId, rttResults: seq<Sample>, geolocation: Option<Geolocation>)

  /** The two fields of a parsed `DnsResult` that the pipeline reads. */
  datatype Response = Response(responseTime: Sample)
  datatype ParsedDnsResult = ParsedDnsResult(probeId: ProbeId, responses: seq<Response>)

  /** What the pipeline raises instead of returning. */
  datatype Error =
    | NoResponse               // `responses[0]` on an empty list: IndexError
    | MissingGeolocation       // `None["country_code"]`: TypeError
    | MeasurementsUnavailable  // iterating the `None` of a failed fetch: TypeError
    | ResultsUnavailable       // the same inside `create_measurement_hash`: TypeError
    | NoMeasurements           // `grouped_result` never assigned: UnboundLocalError

  /** `map_measurement_result_to_probe_info`: the probe id and the first response's time
      as the probe's only sample. The dict it builds has no `"geolocation"` yet;
      `create_measurement_hash` attaches it afterwards, so it is `None` here. */
  function MapMeasurementResultToProbeInfo(parsed: ParsedDnsResult): (r: Result<ProbeInfo, Error>)
    ensures r.Failure? <==> |parsed.responses| == 0
    ensures r.Success? ==> r.value.probeId == parsed.probeId && |r.value.rttResults| == 1
    ensures r.Success? ==> r.value.rttResults[0] == parsed.responses[0].responseTime
  {
    if |parsed.responses| == 0 then Failure(NoResponse)
    else Success(ProbeInfo(parsed.probeId, [parsed.responses[0].responseTime], None))
  }

  /** The list comprehension of `create_measurement_hash` over the fetched results (already
      parsed, `is_error` ones left out): one record per result, in order, or the first
      `IndexError`; iterating the `None` of a failed fetch raises `TypeError`. */
  function ProbesInformation(fetched: Option<seq<ParsedDnsResult>>): (r: Result<seq<ProbeInfo>, Error>)
    ensures fetched.None? ==> r == Failure(ResultsUnavailable)
    ensures fetched.Some? ==> (r.Failure? <==> exists i :: 0 <= i < |fetched.value| && |fetched.value[i].responses| == 0)
    ensures fetched.Some? && r.Failure? ==> r.error == NoResponse
    ensures r.Success? ==> |r.value| == |fetched.value|
    ensures r.Success? ==> forall i :: 0 <= i < |r.value| ==>
              MapMeasurementResultToProbeInfo(fetched.value[i]) == Success(r.value[i])
  {
    match fetched
    case None => Failure(ResultsUnavailable)
    case Some(parsed) => MapResults(parsed)
  }

  function MapResults(parsed: seq<ParsedDnsResult>): (r: Result<seq<ProbeInfo>, Error>)
    ensures r.Failure? <==> exists i :: 0 <= i < |parsed| && |parsed[i].responses| == 0
    ensures r.Failure? ==> r.error == NoResponse
    ensures r.Success? ==> |r.value| == |parsed|
    ensures r.Success? ==> forall i :: 0 <= i < |r.value| ==>
              MapMeasurementResultToProbeInfo(parsed[i]) == Success(r.value[i])
  {
    if |parsed| == 0 then Success([])
    else
      match MapMeasurementResultToProbeInfo(parsed[0])
      case Failure(e) => Failure(e)
      case Success(p) =>
        match MapResults(parsed[1..])
        case Failure(e) => Failure(e)
        case Success(ps) => Success([p] + ps)
  }

  // ---------------------------------------------------------------------------
  // Country codes

  datatype Country = Country(alpha2: string, alpha3: string)

  /** What `pycountry.countries.get(alpha_2=code)` does: return a country, return `None`,
      or raise `LookupError`. The grouping key handed to it may itself be `None`. */
  datatype CountryLookup = Found(country: Country) | NotFound | LookupError

  type CountryDatabase = Option<string> -> CountryLookup

  /** `convert_two_letter_to_three_letter_code`: the country's three-letter code, or
      `None` when the database knows no such country or raises `LookupError`. */
  function ConvertTwoLetterToThreeLetterCode(db: CountryDatabase, code: Option<string>): (r: Option<string>)
    ensures r.Some? <==> db(code).Found?
    ensures r.Some? ==> r.value == db(code).country.alpha3
  {
    match db(code)
    case Found(country) => Some(country.alpha3)
    case NotFound => None
    case LookupError => None
  }

  // ---------------------------------------------------------------------------
  // compute_average_by_country

  /** `[res for res in rtt_results if res]`: the samples that are neither `None` nor zero. */
  function Truthy(xs: seq<Sample>): (r: seq<real>)
    ensures |r| <= |xs|
  {
    if |xs| == 0 then []
    else (if xs[0].Some? && xs[0].value != 0.0 then [xs[0].value] else []) + Truthy(xs[1..])
  }

  /** The filter keeps exactly the samples that are present and non-zero. */
  lemma {:induction false} TruthyMembers(xs: seq<Sample>)
    ensures forall x :: x in Truthy(xs) <==> Some(x) in xs && x != 0.0
  {
    if |xs| > 0 {
      TruthyMembers(xs[1..]);
      assert xs == [xs[0]] + xs[1..];
    }
  }

  /** The filter keeps every present non-zero sample as often as it occurs, and drops each
      `None` and each zero: the probe's average divides by the number of usable samples. */
  lemma TruthyCounts(xs: seq<Sample>)
    ensures forall x :: multiset(Truthy(xs))[x] == (if x == 0.0 then 0 else multiset(xs)[Some(x)])
    ensures |Truthy(xs)| == |xs| - multiset(xs)[None] - multiset(xs)[Some(0.0)]
  {
    forall x ensures multiset(Truthy(xs))[x] == (if x == 0.0 then 0 else multiset(xs)[Some(x)]) {
      TruthyCount(xs, x);
    }
    TruthyLength(xs);
  }

  lemma {:induction false} TruthyCount(xs: seq<Sample>, x: real)
    ensures multiset(Truthy(xs))[x] == (if x == 0.0 then 0 else multiset(xs)[Some(x)])
  {
    if |xs| > 0 {
      TruthyCount(xs[1..], x);
      assert multiset(xs) == multiset{xs[0]} + multiset(xs[1..]) by {
        assert xs == [xs[0]] + xs[1..];
      }
      var h := if xs[0].Some? && xs[0].value != 0.0 then [xs[0].value] else [];
      assert multiset(Truthy(xs)) == multiset(h) + multiset(Truthy(xs[1..]));
    }
  }

  lemma {:induction false} TruthyLength(xs: seq<Sample>)
    ensures |Truthy(xs)| == |xs| - multiset(xs)[None] - multiset(xs)[Some(0.0)]
  {
    if |xs| > 0 {
      TruthyLength(xs[1..]);
      assert xs == [xs[0]] + xs[1..];
    }
  }

  /** A probe's value: the average of its truthy samples (0 when none is left). */
  function ProbeAverage(p: ProbeInfo): real
  {
    Average(Truthy(p.rttResults))
  }

  /** One element of the list comprehension: `{"rtt_result", "country"}`. */
  datatype Row = Row(rttResult: real, country: Option<string>)

  /** The list comprehension of `compute_average_by_country`: one row per probe, in
      order; a probe without geolocation raises. */
  function Rows(results: seq<ProbeInfo>): (r: Result<seq<Row>, Error>)
    ensures r.Failure? <==> exists i :: 0 <= i < |results| && results[i].geolocation.None?
    ensures r.Failure? ==> r.error == MissingGeolocation
    ensures r.Success? ==> |r.value| == |results|
    ensures r.Success? ==> forall i :: 0 <= i < |results| ==>
              r.value[i] == Row(ProbeAverage(results[i]), results[i].geolocation.value.countryCode)
  {
    if |results| == 0 then Success([])
    else if results[0].geolocation.None? then Failure(MissingGeolocation)
    else
      match Rows(results[1..])
      case Failure(e) => Failure(e)
      case Success(rest) =>
        Success([Row(ProbeAverage(results[0]), results[0].geolocation.value.countryCode)] + rest)
  }

  /** The keys of `group_by(rows, "country")`, in the order the dict holds them: each
      country once, in order of first appearance. */
  function GroupKeys(rows: seq<Row>): (keys: seq<Option<string>>)
    ensures forall i, j :: 0 <= i < j < |keys| ==> keys[i] != keys[j]
    ensures forall c :: c in keys <==> exists i :: 0 <= i < |rows| && rows[i].country == c
  {
    if |rows| == 0 then []
    else
      var keys := GroupKeys(rows[..|rows| - 1]);
      var c := rows[|rows| - 1].country;
      assert forall i :: 0 <= i < |rows| - 1 ==> rows[..|rows| - 1][i] == rows[i];
      if c in keys then keys else keys + [c]
  }

  /** The group of `c` under `group_by`: the `rtt_result`s of its rows, in order. */
  function Group(rows: seq<Row>, c: Option<string>): (g: seq<real>)
    ensures |g| <= |rows|
  {
    if |rows| == 0 then []
    else (if rows[0].country == c then [rows[0].rttResult] else []) + Group(rows[1..], c)
  }

  /** `.map_keys(convert).map_values(average of the non-zero rtt_results)` over the
      groups named by `keys`: a later group whose key converts to the same code replaces
      an earlier one, as assigning into a dict does. */
  function ByCountry(keys: seq<Option<string>>, rows: seq<Row>, db: CountryDatabase): (m: map<Option<string>, real>)
    ensures m.Keys == set c | c in keys :: ConvertTwoLetterToThreeLetterCode(db, c)
  {
    if |keys| == 0 then map[]
    else
      var c := keys[|keys| - 1];
      var m := ByCountry(keys[..|keys| - 1], rows, db);
      assert forall x :: x in keys <==> x in keys[..|keys| - 1] || x == c;
      m[ConvertTwoLetterToThreeLetterCode(db, c) := Average(NonZero(Group(rows, c)))]
  }

  /** `compute_average_by_country(results)`. */
  function AverageByCountry(results: seq<ProbeInfo>, db: CountryDatabase): (r: Result<map<Option<string>, real>, Error>)
    ensures r.Failure? <==> exists i :: 0 <= i < |results| && results[i].geolocation.None?
    ensures r.Failure? ==> r.error == MissingGeolocation
  {
    match Rows(results)
    case Failure(e) => Failure(e)
    case Success(rows) => Success(ByCountry(GroupKeys(rows), rows, db))
  }

  /** Reference definition: the averages of the probes located in `c`, in order. */
  function ProbeAveragesIn(results: seq<ProbeInfo>, c: Option<string>): seq<real>
    requires forall i :: 0 <= i < |results| ==> results[i].geolocation.Some?
  {
    if |results| == 0 then []
    else (if results[0].geolocation.value.countryCode == c then [ProbeAverage(results[0])] else [])
         + ProbeAveragesIn(results[1..], c)
  }

  lemma {:induction false} GroupOfRows(results: seq<ProbeInfo>, rows: seq<Row>, c: Option<string>)
    requires Rows(results) == Success(rows)
    ensures Group(rows, c) == ProbeAveragesIn(results, c)
  {
    if |results| > 0 {
      assert Rows(results[1..]) == Success(rows[1..]);
      GroupOfRows(results[1..], rows[1..], c);
    }
  }

  lemma {:induction false} ByCountryAt(keys: seq<Option<string>>, rows: seq<Row>, db: CountryDatabase, c: Option<string>)
    requires c in keys
    requires forall c' :: c' in keys && c' != c ==>
               ConvertTwoLetterToThreeLetterCode(db, c') != ConvertTwoLetterToThreeLetterCode(db, c)
    ensures ByCountry(keys, rows, db)[ConvertTwoLetterToThreeLetterCode(db, c)] == Average(NonZero(Group(rows, c)))
  {
    var last := keys[|keys| - 1];
    if last != c {
      assert forall x :: x in keys[..|keys| - 1] ==> x in keys;
      assert c in keys[..|keys| - 1] by {
        var k :| 0 <= k < |keys| && keys[k] == c;
        assert keys[..|keys| - 1][k] == c;
      }
      ByCountryAt(keys[..|keys| - 1], rows, db, c);
    }
  }

  /** The keys of the result are exactly the converted country codes of the probes,
      `None` included when a code does not convert. */
  lemma AverageByCountryKeys(results: seq<ProbeInfo>, db: CountryDatabase)
    requires forall i :: 0 <= i < |results| ==> results[i].geolocation.Some?
    ensures AverageByCountry(results, db).Success?
    ensures AverageByCountry(results, db).value.Keys
         == set i | 0 <= i < |results| :: ConvertTwoLetterToThreeLetterCode(db, results[i].geolocation.value.countryCode)
  {
    var rows := Rows(results).value;
    var keys := GroupKeys(rows);
    var m := AverageByCountry(results, db).value;
    var s := set i | 0 <= i < |results| :: ConvertTwoLetterToThreeLetterCode(db, results[i].geolocation.value.countryCode);
    forall k | k in m.Keys ensures k in s {
      var c :| c in keys && ConvertTwoLetterToThreeLetterCode(db, c) == k;
      var i :| 0 <= i < |rows| && rows[i].country == c;
    }
    forall k | k in s ensures k in m.Keys {
      var i :| 0 <= i < |results| && ConvertTwoLetterToThreeLetterCode(db, results[i].geolocation.value.countryCode) == k;
      assert rows[i].country in keys;
    }
  }

  /** A country's value is the unweighted average of the non-zero averages of the probes
      located there, as long as no other observed country converts to the same code. */
  lemma AverageByCountryValue(results: seq<ProbeInfo>, db: CountryDatabase, c: Option<string>)
    requires forall i :: 0 <= i < |results| ==> results[i].geolocation.Some?
    requires exists i :: 0 <= i < |results| && results[i].geolocation.value.countryCode == c
    requires forall i :: 0 <= i < |results| && results[i].geolocation.value.countryCode != c ==>
               ConvertTwoLetterToThreeLetterCode(db, results[i].geolocation.value.countryCode)
               != ConvertTwoLetterToThreeLetterCode(db, c)
    ensures AverageByCountry(results, db).Success?
    ensures ConvertTwoLetterToThreeLetterCode(db, c) in AverageByCountry(results, db).value
    ensures AverageByCountry(results, db).value[ConvertTwoLetterToThreeLetterCode(db, c)]
         == Average(NonZero(ProbeAveragesIn(results, c)))
  {
    assert Rows(results).Success?;
    var rows := Rows(results).value;
    var keys := GroupKeys(rows);
    assert AverageByCountry(results, db) == Success(ByCountry(keys, rows, db));
    var i :| 0 <= i < |results| && results[i].geolocation.value.countryCode == c;
    assert rows[i].country == c;
    forall c' | c' in keys && c' != c
      ensures ConvertTwoLetterToThreeLetterCode(db, c') != ConvertTwoLetterToThreeLetterCode(db, c)
    {
      var j :| 0 <= j < |rows| && rows[j].country == c';
    }
    ByCountryAt(keys, rows, db, c);
    GroupOfRows(results, rows, c);
  }

  lemma {:induction false} GroupKeysOfOneCountry(rows: seq<Row>, c: Option<string>)
    requires |rows| > 0
    requires forall i :: 0 <= i < |rows| ==> rows[i].country == c
    ensures GroupKeys(rows) == [c]
  {
    if |rows| > 1 {
      GroupKeysOfOneCountry(rows[..|rows| - 1], c);
    }
  }

  /** Every probe in one country `c`: the result has the single key of `c`, holding the
      mean of the probes' non-zero averages. */
  lemma AverageByCountrySingle(results: seq<ProbeInfo>, db: CountryDatabase, c: Option<string>, code: string)
    requires |results| > 0
    requires forall i :: 0 <= i < |results| ==> results[i].geolocation == Some(Geolocation(c))
    requires db(c).Found? && db(c).country.alpha3 == code
    ensures AverageByCountry(results, db)
         == Success(map[Some(code) := Average(NonZero(ProbeAveragesIn(results, c)))])
  {
    assert Rows(results).Success?;
    var rows := Rows(results).value;
    assert GroupKeys(rows) == [c] by {
      GroupKeysOfOneCountry(rows, c);
    }
    assert Group(rows, c) == ProbeAveragesIn(results, c) by {
      GroupOfRows(results, rows, c);
    }
    assert ByCountry([c], rows, db) == map[Some(code) := Average(NonZero(Group(rows, c)))] by {
      assert [c][..0] == [];
    }
  }

  /** A country's value lies between the smallest and the largest non-zero probe average
      of that country. */
  lemma CountryValueWithin(results: seq<ProbeInfo>, db: CountryDatabase, c: Option<string>, lo: real, hi: real)
    requires forall i :: 0 <= i < |results| ==> results[i].geolocation.Some?
    requires exists i :: 0 <= i < |results| && results[i].geolocation.value.countryCode == c
    requires forall i :: 0 <= i < |results| && results[i].geolocation.value.countryCode != c ==>
               ConvertTwoLetterToThreeLetterCode(db, results[i].geolocation.value.countryCode)
               != ConvertTwoLetterToThreeLetterCode(db, c)
    requires NonZero(ProbeAveragesIn(results, c)) != []
    requires forall x :: x in NonZero(ProbeAveragesIn(results, c)) ==> lo <= x <= hi
    ensures lo <= AverageByCountry(results, db).value[ConvertTwoLetterToThreeLetterCode(db, c)] <= hi
  {
    AverageByCountryValue(results, db, c);
    var xs := NonZero(ProbeAveragesIn(results, c));
    assert forall k :: 0 <= k < |xs| ==> xs[k] in xs;
    AverageWithin(xs, lo, hi);
  }

  /** Filtering commutes with `extend`: the usable samples of a merged record are the
      usable samples of its parts, in order. */
  lemma {:induction false} TruthyAppend(a: seq<Sample>, b: seq<Sample>)
    ensures Truthy(a + b) == Truthy(a) + Truthy(b)
  {
    if |a| > 0 {
      assert (a + b)[1..] == a[1..] + b;
      TruthyAppend(a[1..], b);
    } else {
      assert a + b == b;
    }
  }

  // ---------------------------------------------------------------------------
  // merge_measurement_results

  function ProbeIds(ps: seq<ProbeInfo>): (ids: seq<ProbeId>)
    ensures |ids| == |ps|
    ensures forall i :: 0 <= i < |ps| ==> ids[i] == ps[i].probeId
  {
    seq(|ps|, i requires 0 <= i < |ps| => ps[i].probeId)
  }

  function IdSet(ps: seq<ProbeInfo>): set<ProbeId>
  {
    set id | id in ProbeIds(ps)
  }

  predicate DistinctIds(ps: seq<ProbeInfo>)
  {
    forall i, j :: 0 <= i < j < |ps| ==> ps[i].probeId != ps[j].probeId
  }

  /** The number of samples held by all records. */
  function TotalSamples(ps: seq<ProbeInfo>): nat
  {
    if |ps| == 0 then 0 else |ps[0].rttResults| + TotalSamples(ps[1..])
  }

  /** The samples of the first record of probe `id`, none if there is no such record. */
  function SamplesOf(ps: seq<ProbeInfo>, id: ProbeId): seq<Sample>
  {
    match IndexOf(ProbeIds(ps), id)
    case Some(k) => ps[k].rttResults
    case None => []
  }

  /** The samples the incoming records of probe `id` carry, in order. */
  function Incoming(hash: seq<ProbeInfo>, id: ProbeId): seq<Sample>
  {
    if |hash| == 0 then []
    else (if hash[0].probeId == id then hash[0].rttResults else []) + Incoming(hash[1..], id)
  }

  /** One pass of the outer loop: extend the first record of the same probe, or append. */
  function MergeOne(acc: seq<ProbeInfo>, p: ProbeInfo): seq<ProbeInfo>
  {
    match IndexOf(ProbeIds(acc), p.probeId)
    case Some(k) => acc[k := acc[k].(rttResults := acc[k].rttResults + p.rttResults)]
    case None => acc + [p]
  }

  /** The outer loop over `measurement_hash`, left to right. */
  function MergeInto(hash: seq<ProbeInfo>, acc: seq<ProbeInfo>): seq<ProbeInfo>
  {
    if |hash| == 0 then acc else MergeInto(hash[1..], MergeOne(acc, hash[0]))
  }

  /** `merge_measurement_results(measurement_hash, previous_results)`. */
  function Merge(hash: seq<ProbeInfo>, previous: seq<ProbeInfo>): seq<ProbeInfo>
  {
    if previous == [] then hash else MergeInto(hash, previous)
  }

  /** `merge_measurement_results`: the outer loop over `measurement_hash`; the in-place
      `extend` and `append` are updates of `merged`. */
  method MergeMeasurementResults(measurementHash: seq<ProbeInfo>, previousResults: seq<ProbeInfo>)
    returns (merged: seq<ProbeInfo>)
    ensures merged == Merge(measurementHash, previousResults)
  {
    if previousResults == [] {
      return measurementHash;
    }
    merged := previousResults;
    ghost var target := MergeInto(measurementHash, previousResults);
    var i := 0;
    assert measurementHash[0..] == measurementHash;
    while i < |measurementHash|
      invariant 0 <= i <= |measurementHash|
      invariant MergeInto(measurementHash[i..], merged) == target
    {
      var probeInfo := measurementHash[i];
      var j := FindProbe(merged, probeInfo.probeId);
      MergeStep(merged, probeInfo, j);
      MergeIntoStep(measurementHash, i, merged);
      var next: seq<ProbeInfo>;
      if j < |merged| {
        next := merged[j := merged[j].(rttResults := merged[j].rttResults + probeInfo.rttResults)];
      } else {
        next := merged + [probeInfo];
      }
      merged, i := next, i + 1;
    }
    assert measurementHash[i..] == [];
  }

  /** The inner `for`/`else` of `merge_measurement_results`: the index of the first record
      of probe `id`, or `|merged|` when there is none (the `else` branch). */
  method FindProbe(merged: seq<ProbeInfo>, id: ProbeId) returns (j: nat)
    ensures j <= |merged|
    ensures forall k :: 0 <= k < j ==> merged[k].probeId != id
    ensures j < |merged| ==> merged[j].probeId == id
  {
    j := 0;
    while j < |merged| && merged[j].probeId != id
      invariant 0 <= j <= |merged|
      invariant forall k :: 0 <= k < j ==> merged[k].probeId != id
    {
      j := j + 1;
    }
  }

  /** The linear search of the inner loop finds what `MergeOne` looks up. */
  lemma MergeStep(acc: seq<ProbeInfo>, p: ProbeInfo, j: nat)
    requires j <= |acc|
    requires forall k :: 0 <= k < j ==> acc[k].probeId != p.probeId
    requires j < |acc| ==> acc[j].probeId == p.probeId
    ensures j < |acc| ==> MergeOne(acc, p) == acc[j := acc[j].(rttResults := acc[j].rttResults + p.rttResults)]
    ensures j == |acc| ==> MergeOne(acc, p) == acc + [p]
  {
    if j < |acc| {
      IndexOfFirst(ProbeIds(acc), p.probeId, j);
    } else {
      assert p.probeId !in ProbeIds(acc);
    }
  }

  lemma MergeIntoStep(hash: seq<ProbeInfo>, i: nat, acc: seq<ProbeInfo>)
    requires i < |hash|
    ensures MergeInto(hash[i..], acc) == MergeInto(hash[i + 1..], MergeOne(acc, hash[i]))
  {
    assert hash[i..][1..] == hash[i + 1..];
  }

  lemma IndexOfFirst(xs: seq<ProbeId>, x: ProbeId, k: nat)
    requires k < |xs| && xs[k] == x
    requires forall j :: 0 <= j < k ==> xs[j] != x
    ensures IndexOf(xs, x) == Some(k)
  {
  }

  /** Merging one record keeps every existing record in place, with its probe id and
      geolocation, and its samples as a prefix; it adds at most one record, at the end. */
  lemma MergeOneKeepsExisting(acc: seq<ProbeInfo>, p: ProbeInfo)
    ensures |acc| <= |MergeOne(acc, p)| <= |acc| + 1
    ensures forall k :: 0 <= k < |acc| ==>
              MergeOne(acc, p)[k].probeId == acc[k].probeId
              && MergeOne(acc, p)[k].geolocation == acc[k].geolocation
              && acc[k].rttResults <= MergeOne(acc, p)[k].rttResults
  {
  }

  /** The samples of each probe after one step: the first record of the probe gains the
      incoming samples, or the incoming record becomes the probe's record. */
  lemma MergeOneSamples(acc: seq<ProbeInfo>, p: ProbeInfo, id: ProbeId)
    ensures SamplesOf(MergeOne(acc, p), id)
         == SamplesOf(acc, id) + (if p.probeId == id then p.rttResults else [])
  {
    var ids := ProbeIds(acc);
    var acc' := MergeOne(acc, p);
    match IndexOf(ids, p.probeId)
    case Some(k) =>
      assert ProbeIds(acc') == ids;
    case None =>
      assert ProbeIds(acc') == ids + [p.probeId];
      if id == p.probeId {
        IndexOfFirst(ids + [p.probeId], id, |ids|);
      } else {
        match IndexOf(ids, id)
        case Some(m) =>
          IndexOfFirst(ids + [p.probeId], id, m);
        case None =>
      }
  }

  /** Each probe's samples after merging are its earlier samples followed by all its
      incoming samples in order. */
  lemma {:induction false} MergeIntoSamples(hash: seq<ProbeInfo>, acc: seq<ProbeInfo>, id: ProbeId)
    ensures SamplesOf(MergeInto(hash, acc), id) == SamplesOf(acc, id) + Incoming(hash, id)
  {
    if |hash| > 0 {
      MergeOneSamples(acc, hash[0], id);
      MergeIntoSamples(hash[1..], MergeOne(acc, hash[0]), id);
    }
  }

  /** Records are never removed, reordered or relocated by merging into a non-empty list. */
  lemma {:induction false} MergeIntoKeepsExisting(hash: seq<ProbeInfo>, acc: seq<ProbeInfo>)
    ensures |acc| <= |MergeInto(hash, acc)|
    ensures forall k :: 0 <= k < |acc| ==>
              MergeInto(hash, acc)[k].probeId == acc[k].probeId
              && MergeInto(hash, acc)[k].geolocation == acc[k].geolocation
  {
    if |hash| > 0 {
      MergeOneKeepsExisting(acc, hash[0]);
      MergeIntoKeepsExisting(hash[1..], MergeOne(acc, hash[0]));
    }
  }

  lemma {:induction false} TotalSamplesAppend(ps: seq<ProbeInfo>, p: ProbeInfo)
    ensures TotalSamples(ps + [p]) == TotalSamples(ps) + |p.rttResults|
  {
    if |ps| > 0 {
      assert (ps + [p])[1..] == ps[1..] + [p];
      TotalSamplesAppend(ps[1..], p);
    }
  }

  lemma {:induction false} TotalSamplesUpdate(ps: seq<ProbeInfo>, k: nat, q: ProbeInfo)
    requires k < |ps|
    ensures TotalSamples(ps[k := q]) == TotalSamples(ps) - |ps[k].rttResults| + |q.rttResults|
  {
    if k > 0 {
      assert ps[k := q][1..] == ps[1..][k - 1 := q];
      TotalSamplesUpdate(ps[1..], k - 1, q);
    }
  }

  lemma {:induction false} MergeIntoConservesSamples(hash: seq<ProbeInfo>, acc: seq<ProbeInfo>)
    ensures TotalSamples(MergeInto(hash, acc)) == TotalSamples(acc) + TotalSamples(hash)
  {
    if |hash| > 0 {
      var p := hash[0];
      match IndexOf(ProbeIds(acc), p.probeId) {
        case Some(k) =>
          TotalSamplesUpdate(acc, k, acc[k].(rttResults := acc[k].rttResults + p.rttResults));
        case None =>
          TotalSamplesAppend(acc, p);
      }
      MergeIntoConservesSamples(hash[1..], MergeOne(acc, p));
    }
  }

  /** Merging conserves samples: the merged records hold exactly the earlier samples plus
      the incoming ones. */
  lemma MergeConservesSamples(hash: seq<ProbeInfo>, previous: seq<ProbeInfo>)
    ensures TotalSamples(Merge(hash, previous)) == TotalSamples(previous) + TotalSamples(hash)
  {
    if previous != [] {
      MergeIntoConservesSamples(hash, previous);
    }
  }

  lemma {:induction false} MergeIntoIds(hash: seq<ProbeInfo>, acc: seq<ProbeInfo>)
    ensures IdSet(MergeInto(hash, acc)) == IdSet(acc) + IdSet(hash)
  {
    if |hash| > 0 {
      var p := hash[0];
      var acc' := MergeOne(acc, p);
      match IndexOf(ProbeIds(acc), p.probeId) {
        case Some(k) =>
          assert ProbeIds(acc') == ProbeIds(acc);
        case None =>
          assert ProbeIds(acc') == ProbeIds(acc) + [p.probeId];
      }
      MergeIntoIds(hash[1..], acc');
      assert ProbeIds(hash) == [p.probeId] + ProbeIds(hash[1..]);
    }
  }

  /** The probes after merging are those seen before together with the incoming ones. */
  lemma MergeIds(hash: seq<ProbeInfo>, previous: seq<ProbeInfo>)
    ensures IdSet(Merge(hash, previous)) == IdSet(previous) + IdSet(hash)
  {
    if previous != [] {
      MergeIntoIds(hash, previous);
    }
  }

  lemma {:induction false} MergeIntoKeepsDistinct(hash: seq<ProbeInfo>, acc: seq<ProbeInfo>)
    requires DistinctIds(acc)
    ensures DistinctIds(MergeInto(hash, acc))
  {
    if |hash| > 0 {
      var p := hash[0];
      var acc' := MergeOne(acc, p);
      match IndexOf(ProbeIds(acc), p.probeId) {
        case Some(k) =>
          assert ProbeIds(acc') == ProbeIds(acc);
        case None =>
          assert forall i :: 0 <= i < |acc| ==> acc[i].probeId != p.probeId by {
            assert forall i :: 0 <= i < |acc| ==> ProbeIds(acc)[i] in ProbeIds(acc);
          }
      }
      MergeIntoKeepsDistinct(hash[1..], acc');
    }
  }

  /** Merging into a non-empty list of distinct probes keeps the probes distinct. */
  lemma MergeKeepsDistinct(hash: seq<ProbeInfo>, previous: seq<ProbeInfo>)
    requires previous != [] && DistinctIds(previous)
    ensures DistinctIds(Merge(hash, previous))
  {
    MergeIntoKeepsDistinct(hash, previous);
  }

  /** With no earlier records the incoming list is returned as it is, repeated probes
      included, while merging the same list into any earlier record folds them together. */
  lemma EmptyPreviousKeepsRepeats(a: seq<Sample>, b: seq<Sample>, g: Option<Geolocation>)
    ensures var hash := [ProbeInfo(7, a, g), ProbeInfo(7, b, g)];
            Merge(hash, []) == hash && !DistinctIds(Merge(hash, []))
            && Merge(hash, [ProbeInfo(7, [], g)]) == [ProbeInfo(7, a + b, g)]
  {
    var hash := [ProbeInfo(7, a, g), ProbeInfo(7, b, g)];
    assert hash[0].probeId == hash[1].probeId;
    var acc := [ProbeInfo(7, [], g)];
    MergeStep(acc, hash[0], 0);
    assert [] + a == a;
    var acc1 := [ProbeInfo(7, a, g)];
    assert MergeOne(acc, hash[0]) == acc1;
    MergeStep(acc1, hash[1], 0);
    assert MergeOne(acc1, hash[1]) == [ProbeInfo(7, a + b, g)];
    assert hash[1..] == [hash[1]];
    assert MergeInto(hash, acc) == MergeInto([hash[1]], acc1);
    assert MergeInto([hash[1]], acc1) == MergeInto([], MergeOne(acc1, hash[1]));
  }

  // ---------------------------------------------------------------------------
  // check_dns_measurements

  /** What `create_measurement_hash(id)` returns or raises, for each measurement id. */
  type HashFetcher = MeasurementId -> Result<seq<ProbeInfo>, Error>

  /** One pass of the loop: fetch the measurement's probe records, merge them into the
      results so far and group the merged records; the first exception ends the call. */
  function Iteration(results: seq<ProbeInfo>, fetched: Result<seq<ProbeInfo>, Error>, db: CountryDatabase)
    : (r: Result<seq<ProbeInfo>, Error>)
    ensures fetched.Failure? ==> r == Failure(fetched.error)
    ensures r.Success? ==> fetched.Success? && r.value == Merge(fetched.value, results)
    ensures r.Success? ==> AverageByCountry(r.value, db).Success?
    ensures fetched.Success? && r.Failure? ==> r == Failure(MissingGeolocation)
  {
    match fetched
    case Failure(e) => Failure(e)
    case Success(hash) =>
      var merged := Merge(hash, results);
      match AverageByCountry(merged, db)
      case Failure(e) => Failure(e)
      case Success(_) => Success(merged)
  }

  /** `results` after the loop has run over `ids`, or the exception that stopped it. */
  function LoopResults(ids: seq<MeasurementId>, createMeasurementHash: HashFetcher, db: CountryDatabase)
    : Result<seq<ProbeInfo>, Error>
  {
    if |ids| == 0 then Success([])
    else
      match LoopResults(ids[..|ids| - 1], createMeasurementHash, db)
      case Failure(e) => Failure(e)
      case Success(results) => Iteration(results, createMeasurementHash(ids[|ids| - 1]), db)
  }

  /** What `check_dns_measurements` returns or raises for the fetched measurement list. */
  function CheckDns(measurements: Option<seq<MeasurementId>>, createMeasurementHash: HashFetcher,
                    db: CountryDatabase): (r: Result<map<Option<string>, real>, Error>)
    ensures r.Success? ==> measurements.Some? && |measurements.value| > 0
    ensures r.Success? ==> LoopResults(measurements.value, createMeasurementHash, db).Success?
  {
    match measurements
    case None => Failure(MeasurementsUnavailable)
    case Some(ids) =>
      if |ids| == 0 then Failure(NoMeasurements)
      else
        match LoopResults(ids, createMeasurementHash, db)
        case Failure(e) => Failure(e)
        case Success(results) => AverageByCountry(results, db)
  }

  /** `check_dns_measurements(date)` with the day's measurement list fetched already
      (`None` when the fetch failed) and `create_measurement_hash` as a parameter. */
  method CheckDnsMeasurements(measurements: Option<seq<MeasurementId>>,
                              createMeasurementHash: HashFetcher,
                              db: CountryDatabase)
    returns (r: Result<map<Option<string>, real>, Error>)
    ensures r == CheckDns(measurements, createMeasurementHash, db)
  {
    if measurements.None? {
      return Failure(MeasurementsUnavailable);
    }
    var ids := measurements.value;
    var results: seq<ProbeInfo> := [];
    var grouped: Option<map<Option<string>, real>> := None;
    for i := 0 to |ids|
      invariant LoopResults(ids[..i], createMeasurementHash, db) == Success(results)
      invariant grouped.None? <==> i == 0
      invariant grouped.Some? ==> AverageByCountry(results, db) == Success(grouped.value)
    {
      LoopStep(ids, createMeasurementHash, db, i);
      var fetched := createMeasurementHash(ids[i]);
      if fetched.Failure? {
        LoopFailureIsFinal(ids, createMeasurementHash, db, i + 1);
        return Failure(fetched.error);
      }
      results := MergeMeasurementResults(fetched.value, results);
      var g := AverageByCountry(results, db);
      if g.Failure? {
        LoopFailureIsFinal(ids, createMeasurementHash, db, i + 1);
        return Failure(g.error);
      }
      grouped := Some(g.value);
    }
    if grouped.None? {
      return Failure(NoMeasurements);
    }
    assert ids[..|ids|] == ids;
    r := Success(grouped.value);
  }

  lemma LoopStep(ids: seq<MeasurementId>, createMeasurementHash: HashFetcher, db: CountryDatabase, i: nat)
    requires i < |ids|
    requires LoopResults(ids[..i], createMeasurementHash, db).Success?
    ensures LoopResults(ids[..i + 1], createMeasurementHash, db)
         == Iteration(LoopResults(ids[..i], createMeasurementHash, db).value, createMeasurementHash(ids[i]), db)
  {
    assert ids[..i + 1][..i] == ids[..i];
  }

  /** An exception part-way through the loop is the outcome of the whole loop. */
  lemma {:induction false} LoopFailureIsFinal(ids: seq<MeasurementId>, createMeasurementHash: HashFetcher,
                                              db: CountryDatabase, i: nat)
    requires i <= |ids|
    requires LoopResults(ids[..i], createMeasurementHash, db).Failure?
    ensures LoopResults(ids, createMeasurementHash, db) == LoopResults(ids[..i], createMeasurementHash, db)
  {
    if i < |ids| {
      var prefix := ids[..|ids| - 1];
      assert prefix[..i] == ids[..i];
      LoopFailureIsFinal(prefix, createMeasurementHash, db, i);
    } else {
      assert ids[..i] == ids;
    }
  }

  /** A `create_measurement_hash` that raises, reached with no earlier exception, is what
      the call raises. */
  lemma FetchFailureRaises(ids: seq<MeasurementId>, createMeasurementHash: HashFetcher, db: CountryDatabase, k: nat)
    requires k < |ids|
    requires LoopResults(ids[..k], createMeasurementHash, db).Success?
    requires createMeasurementHash(ids[k]).Failure?
    ensures CheckDns(Some(ids), createMeasurementHash, db) == Failure(createMeasurementHash(ids[k]).error)
  {
    LoopStep(ids, createMeasurementHash, db, k);
    LoopFailureIsFinal(ids, createMeasurementHash, db, k + 1);
  }

  /** Every `create_measurement_hash` call of `ids` returns. */
  predicate AllFetched(ids: seq<MeasurementId>, createMeasurementHash: HashFetcher)
  {
    forall i :: 0 <= i < |ids| ==> createMeasurementHash(ids[i]).Success?
  }

  /** Reference definition: the left fold of merges over the fetched measurements of `ids`. */
  function MergedResults(ids: seq<MeasurementId>, createMeasurementHash: HashFetcher): seq<ProbeInfo>
    requires AllFetched(ids, createMeasurementHash)
  {
    if |ids| == 0 then []
    else Merge(createMeasurementHash(ids[|ids| - 1]).value, MergedResults(ids[..|ids| - 1], createMeasurementHash))
  }

  predicate HasMissingGeolocation(ps: seq<ProbeInfo>)
  {
    exists k :: 0 <= k < |ps| && ps[k].geolocation.None?
  }

  /** A probe without geolocation stays among the results through a merge. */
  lemma MergeKeepsMissing(hash: seq<ProbeInfo>, previous: seq<ProbeInfo>)
    requires HasMissingGeolocation(previous)
    ensures HasMissingGeolocation(Merge(hash, previous))
  {
    var k :| 0 <= k < |previous| && previous[k].geolocation.None?;
    MergeIntoKeepsExisting(hash, previous);
    assert Merge(hash, previous)[k].geolocation.None?;
  }

  /** When every fetch returns, the loop either holds the merged results or stopped at a
      grouping whose `TypeError` the final grouping raises as well. */
  lemma {:induction false} LoopMatchesMerged(ids: seq<MeasurementId>, createMeasurementHash: HashFetcher, db: CountryDatabase)
    requires AllFetched(ids, createMeasurementHash)
    ensures LoopResults(ids, createMeasurementHash, db).Success? ==>
              LoopResults(ids, createMeasurementHash, db).value == MergedResults(ids, createMeasurementHash)
    ensures LoopResults(ids, createMeasurementHash, db).Failure? ==>
              LoopResults(ids, createMeasurementHash, db) == Failure(MissingGeolocation)
              && HasMissingGeolocation(MergedResults(ids, createMeasurementHash))
  {
    if |ids| > 0 {
      var prefix := ids[..|ids| - 1];
      LoopMatchesMerged(prefix, createMeasurementHash, db);
      var hash := createMeasurementHash(ids[|ids| - 1]).value;
      var previous := MergedResults(prefix, createMeasurementHash);
      if LoopResults(prefix, createMeasurementHash, db).Failure? {
        MergeKeepsMissing(hash, previous);
      } else if AverageByCountry(Merge(hash, previous), db).Failure? {
        assert HasMissingGeolocation(Merge(hash, previous));
      }
    }
  }

  /** When every fetch returns, `check_dns_measurements` is the grouping of all the
      merged measurements. */
  lemma CheckDnsAllFetched(ids: seq<MeasurementId>, createMeasurementHash: HashFetcher, db: CountryDatabase)
    requires |ids| > 0
    requires AllFetched(ids, createMeasurementHash)
    ensures CheckDns(Some(ids), createMeasurementHash, db) == AverageByCountry(MergedResults(ids, createMeasurementHash), db)
  {
    LoopMatchesMerged(ids, createMeasurementHash, db);
  }

  /** The fold conserves samples: the records handed to `compute_average_by_country` hold
      every sample of every fetched measurement. */
  lemma {:induction false} MergedResultsConservesSamples(ids: seq<MeasurementId>, createMeasurementHash: HashFetcher)
    requires AllFetched(ids, createMeasurementHash)
    ensures TotalSamples(MergedResults(ids, createMeasurementHash)) == FetchedSamples(ids, createMeasurementHash)
  {
    if |ids| > 0 {
      MergedResultsConservesSamples(ids[..|ids| - 1], createMeasurementHash);
      MergeConservesSamples(createMeasurementHash(ids[|ids| - 1]).value, MergedResults(ids[..|ids| - 1], createMeasurementHash));
    }
  }

  /** The number of samples the measurements of `ids` carry. */
  function FetchedSamples(ids: seq<MeasurementId>, createMeasurementHash: HashFetcher): nat
    requires AllFetched(ids, createMeasurementHash)
  {
    if |ids| == 0 then 0
    else FetchedSamples(ids[..|ids| - 1], createMeasurementHash) + TotalSamples(createMeasurementHash(ids[|ids| - 1]).value)
  }
}
