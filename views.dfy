/** `dns_data_line`: answer a request for the daily records of `[start, end]` from an
    in-memory cache of daily records, falling back to `dns_between_dates` for the days
    the cache does not cover, and splicing the pieces into one list. The Django
    `JsonResponse` around the list is left out. */
module Views {
  import opened Wrappers
  import opened Lists

  /** A calendar day, counted in days since 1970-01-01 (the record's `YYYY-MM-DD` name). */
  type Day = int

  const SecondsPerDay: int := 86400

  /** `convert_to_timestamp` (not part of this model), assumed to be seconds since the
      epoch at midnight UTC of the day, which
      matches the values its tests expect. The proofs use only that it increases with the
      day (`TimestampOrder`). */
  function Timestamp(d: Day): int
  {
    d * SecondsPerDay
  }

  /** One element of `countries_data` or of the fallback's output: the day under
      `"name"`, the per-country values under the other keys. */
  datatype DailyRecord = DailyRecord(name: Day, metrics: map<string, real>)

  /** What `dns_data_line` raises instead of returning. */
  datatype LineError =
    | EmptyCache              // `countries_data[-1]` on an empty list: IndexError
    | DateNotInCache(date: Day)  // `cached_dates.index(date)`: ValueError

  /** `[item["name"] for item in countries_data]`. */
  function Names(cache: seq<DailyRecord>): (names: seq<Day>)
    ensures |names| == |cache|
    ensures forall i :: 0 <= i < |cache| ==> names[i] == cache[i].name
  {
    seq(|cache|, i requires 0 <= i < |cache| => cache[i].name)
  }

  /** `dns_data_line(request, start_date, end_date)` with the cache `countries_data` and
      the fallback `dns_between_dates` (an inclusive range of days) as parameters. */
  function DnsDataLine(cache: seq<DailyRecord>, start: Day, end: Day,
                       compute: (Day, Day) -> seq<DailyRecord>): (r: Result<seq<DailyRecord>, LineError>)
    ensures |cache| == 0 <==> r == Failure(EmptyCache)
  {
    if |cache| == 0 then Failure(EmptyCache)
    else
      var last := cache[|cache| - 1].name;
      var first := cache[0].name;
      var cachedDates := Names(cache);
      if Timestamp(start) >= Timestamp(first) && Timestamp(start) <= Timestamp(last) then
        match IndexOf(cachedDates, start)
        case None => Failure(DateNotInCache(start))
        case Some(startIndex) =>
          if Timestamp(end) <= Timestamp(last) then
            match IndexOf(cachedDates, end)
            case None => Failure(DateNotInCache(end))
            case Some(endIndex) => Success(Slice(cache, startIndex, endIndex + 1))
          else
            Success(SliceFrom(cache, startIndex) + SliceFrom(compute(last, end), 1))
      else if Timestamp(start) < Timestamp(first)
              && Timestamp(end) >= Timestamp(first) && Timestamp(end) <= Timestamp(last) then
        if Timestamp(end) <= Timestamp(last) then
          match IndexOf(cachedDates, end)
          case None => Failure(DateNotInCache(end))
          case Some(endIndex) => Success(compute(start, first) + Slice(cache, 1, endIndex + 1))
        else
          // the enclosing guard already demands end <= last: this branch is never taken
          Success(compute(start, first) + Slice(cache, 1, -1) + compute(last, end))
      else
        Success(compute(start, end))
  }

  /** `rs` holds exactly one record for each day of `a..b`, in ascending order. */
  predicate OneRecordPerDay(rs: seq<DailyRecord>, a: Day, b: Day)
  {
    |rs| == b - a + 1 && forall i :: 0 <= i < |rs| ==> rs[i].name == a + i
  }

  /** The contract of `dns_between_dates`: one record per day of the requested range. */
  ghost predicate IsRangeComputer(compute: (Day, Day) -> seq<DailyRecord>)
  {
    forall a, b :: a <= b ==> OneRecordPerDay(compute(a, b), a, b)
  }

  /** The cache is non-empty, ascending, and holds exactly one record per consecutive day. */
  predicate WellFormedCache(cache: seq<DailyRecord>)
  {
    |cache| > 0 && OneRecordPerDay(cache, cache[0].name, cache[|cache| - 1].name)
  }

  /** Ordering by timestamp is ordering by day. */
  lemma TimestampOrder(a: Day, b: Day)
    ensures Timestamp(a) <= Timestamp(b) <==> a <= b
    ensures Timestamp(a) < Timestamp(b) <==> a < b
    ensures Timestamp(b) - Timestamp(a) == (b - a) * SecondsPerDay
  {
  }

  /** One record per day means strictly ascending days, so no day appears twice. */
  lemma {:induction false} OneRecordPerDayAscending(rs: seq<DailyRecord>, a: Day, b: Day)
    requires OneRecordPerDay(rs, a, b)
    ensures forall i, j :: 0 <= i < j < |rs| ==> rs[i].name < rs[j].name
    ensures forall i, j :: 0 <= i < |rs| && 0 <= j < |rs| && rs[i].name == rs[j].name ==> i == j
  {
  }

  /** In a well-formed cache the exact-match lookup of a day in `first..last` succeeds at
      offset `day - first`. */
  lemma CachedIndex(cache: seq<DailyRecord>, d: Day)
    requires WellFormedCache(cache)
    requires cache[0].name <= d <= cache[|cache| - 1].name
    ensures IndexOf(Names(cache), d) == Some(d - cache[0].name)
  {
    var names := Names(cache);
    var k := d - cache[0].name;
    assert names[k] == d;
    match IndexOf(names, d)
    case None =>
    case Some(j) =>
      assert names[j] == cache[0].name + j;
  }

  /** A requested start inside the cache span and an end not after the cache's last day
      (`views.py` lines 31-40): the answer is the cache slice from the start's exact-match
      position to the end's, and the fallback is not consulted. */
  lemma StartAndEndCached(cache: seq<DailyRecord>, start: Day, end: Day,
                          compute: (Day, Day) -> seq<DailyRecord>, i: nat, j: nat)
    requires |cache| > 0
    requires cache[0].name <= start <= cache[|cache| - 1].name
    requires end <= cache[|cache| - 1].name
    requires IndexOf(Names(cache), start) == Some(i) && IndexOf(Names(cache), end) == Some(j)
    ensures DnsDataLine(cache, start, end, compute) == Success(Slice(cache, i, j + 1))
    ensures forall other: (Day, Day) -> seq<DailyRecord> ::
              DnsDataLine(cache, start, end, other) == DnsDataLine(cache, start, end, compute)
  {
    TimestampOrder(cache[0].name, start);
    TimestampOrder(start, cache[|cache| - 1].name);
    TimestampOrder(end, cache[|cache| - 1].name);
  }

  /** Start inside the cache span, end after it (lines 41-45): the cache from the start's
      position, then the fallback's range from the cache's last day to `end` without its
      first record, the one for the cache's last day. */
  lemma StartCachedEndBeyond(cache: seq<DailyRecord>, start: Day, end: Day,
                             compute: (Day, Day) -> seq<DailyRecord>, i: nat)
    requires |cache| > 0
    requires cache[0].name <= start <= cache[|cache| - 1].name
    requires end > cache[|cache| - 1].name
    requires IndexOf(Names(cache), start) == Some(i)
    ensures DnsDataLine(cache, start, end, compute)
         == Success(cache[i..] + SliceFrom(compute(cache[|cache| - 1].name, end), 1))
  {
    TimestampOrder(cache[0].name, start);
    TimestampOrder(start, cache[|cache| - 1].name);
    TimestampOrder(end, cache[|cache| - 1].name);
  }

  /** Start before the cache, end inside it (lines 46-56): the fallback's range from `start`
      to the cache's first day, then the cache from its second record to the end's
      position. */
  lemma StartBeforeEndCached(cache: seq<DailyRecord>, start: Day, end: Day,
                             compute: (Day, Day) -> seq<DailyRecord>, j: nat)
    requires |cache| > 0
    requires start < cache[0].name <= end <= cache[|cache| - 1].name
    requires IndexOf(Names(cache), end) == Some(j)
    ensures DnsDataLine(cache, start, end, compute)
         == Success(compute(start, cache[0].name) + cache[1..j + 1])
  {
    TimestampOrder(start, cache[0].name);
    TimestampOrder(cache[0].name, end);
    TimestampOrder(end, cache[|cache| - 1].name);
  }

  /** Every other request, including one that starts before the cache and ends after it,
      is recomputed in full by the fallback (lines 46-49 and 63-64): the interior splice of
      lines 57-62 is never reached. */
  lemma OtherwiseRecomputed(cache: seq<DailyRecord>, start: Day, end: Day,
                            compute: (Day, Day) -> seq<DailyRecord>)
    requires |cache| > 0
    requires start <= end < cache[0].name || start > cache[|cache| - 1].name
          || (start < cache[0].name && end > cache[|cache| - 1].name)
    ensures DnsDataLine(cache, start, end, compute) == Success(compute(start, end))
  {
    var first, last := cache[0].name, cache[|cache| - 1].name;
    TimestampOrder(start, first);
    TimestampOrder(start, last);
    if end < first {
      TimestampOrder(end, first);
      TimestampOrder(start, end);
    } else if start > last {
    } else {
      TimestampOrder(last, end);
    }
  }

  /** A start inside the cache span that is not a cached name raises `ValueError`
      (line 35); so does such an end in the two lookup branches (lines 37 and 53). */
  lemma UncachedDateRaises(cache: seq<DailyRecord>, start: Day, end: Day,
                           compute: (Day, Day) -> seq<DailyRecord>)
    requires |cache| > 0
    requires (cache[0].name <= start <= cache[|cache| - 1].name && start !in Names(cache))
          || (cache[0].name <= end <= cache[|cache| - 1].name && end !in Names(cache)
              && start <= cache[|cache| - 1].name)
    ensures DnsDataLine(cache, start, end, compute).Failure?
    ensures cache[0].name <= start <= cache[|cache| - 1].name && start !in Names(cache)
            ==> DnsDataLine(cache, start, end, compute) == Failure(DateNotInCache(start))
  {
    TimestampOrder(start, cache[0].name);
    TimestampOrder(cache[0].name, end);
    TimestampOrder(start, cache[|cache| - 1].name);
    TimestampOrder(end, cache[|cache| - 1].name);
  }

  /** Both ends cached: the answer is the cache's records for `start..end`. */
  lemma {:induction false} CacheHitCorrect(cache: seq<DailyRecord>, start: Day, end: Day,
                                           compute: (Day, Day) -> seq<DailyRecord>)
    requires WellFormedCache(cache)
    requires cache[0].name <= start <= end <= cache[|cache| - 1].name
    ensures DnsDataLine(cache, start, end, compute)
         == Success(cache[start - cache[0].name..end - cache[0].name + 1])
    ensures OneRecordPerDay(DnsDataLine(cache, start, end, compute).value, start, end)
  {
    var first := cache[0].name;
    CachedIndex(cache, start);
    CachedIndex(cache, end);
    StartAndEndCached(cache, start, end, compute, start - first, end - first);
  }

  /** A run of days `a..b` followed by a run `b..c` whose first record (day `b` again) is
      dropped is a run of days `a..c`. */
  lemma JoinDays(xs: seq<DailyRecord>, a: Day, b: Day, ys: seq<DailyRecord>, c: Day)
    requires OneRecordPerDay(xs, a, b) && OneRecordPerDay(ys, b, c) && b <= c
    ensures OneRecordPerDay(xs + ys[1..], a, c)
  {
    var rs := xs + ys[1..];
    forall k | 0 <= k < |rs| ensures rs[k].name == a + k {
      if k >= |xs| {
        assert rs[k] == ys[k - |xs| + 1];
      }
    }
  }

  /** Part of a run of days is a run of days. */
  lemma SliceDays(xs: seq<DailyRecord>, a: Day, b: Day, i: nat, j: nat)
    requires OneRecordPerDay(xs, a, b) && i <= j <= |xs|
    ensures OneRecordPerDay(xs[i..j], a + i, a + j - 1)
  {
  }

  /** Start cached, end beyond the cache: the cached tail and the fallback's new days
      join without a gap or a repeated day. */
  lemma {:induction false} ExtendAfterCorrect(cache: seq<DailyRecord>, start: Day, end: Day,
                                              compute: (Day, Day) -> seq<DailyRecord>)
    requires WellFormedCache(cache)
    requires IsRangeComputer(compute)
    requires cache[0].name <= start <= cache[|cache| - 1].name < end
    ensures DnsDataLine(cache, start, end, compute).Success?
    ensures OneRecordPerDay(DnsDataLine(cache, start, end, compute).value, start, end)
  {
    var first, last := cache[0].name, cache[|cache| - 1].name;
    var i := start - first;
    CachedIndex(cache, start);
    StartCachedEndBeyond(cache, start, end, compute, i);
    var tail := compute(last, end);
    assert OneRecordPerDay(tail, last, end);
    SliceDays(cache, first, last, i, |cache|);
    assert cache[i..|cache|] == cache[i..];
    JoinDays(cache[i..], start, last, tail, end);
  }

  /** Start before the cache, end cached: the fallback's days and the cached days join
      without a gap or a repeated day. */
  lemma {:induction false} ExtendBeforeCorrect(cache: seq<DailyRecord>, start: Day, end: Day,
                                               compute: (Day, Day) -> seq<DailyRecord>)
    requires WellFormedCache(cache)
    requires IsRangeComputer(compute)
    requires start < cache[0].name <= end <= cache[|cache| - 1].name
    ensures DnsDataLine(cache, start, end, compute).Success?
    ensures OneRecordPerDay(DnsDataLine(cache, start, end, compute).value, start, end)
  {
    var first, last := cache[0].name, cache[|cache| - 1].name;
    var j := end - first;
    CachedIndex(cache, end);
    StartBeforeEndCached(cache, start, end, compute, j);
    var head := compute(start, first);
    assert OneRecordPerDay(head, start, first);
    SliceDays(cache, first, last, 0, j + 1);
    assert cache[0..j + 1][1..] == cache[1..j + 1];
    JoinDays(head, start, first, cache[0..j + 1], end);
  }

  /** The resolver's promise: from a well-formed cache and a fallback that keeps its
      contract, every request with `start <= end` is answered with exactly one record per
      day of `start..end`, in ascending order. */
  lemma DnsDataLineCorrect(cache: seq<DailyRecord>, start: Day, end: Day,
                           compute: (Day, Day) -> seq<DailyRecord>)
    requires WellFormedCache(cache)
    requires IsRangeComputer(compute)
    requires start <= end
    ensures DnsDataLine(cache, start, end, compute).Success?
    ensures OneRecordPerDay(DnsDataLine(cache, start, end, compute).value, start, end)
  {
    var first, last := cache[0].name, cache[|cache| - 1].name;
    if first <= start <= last && end <= last {
      CacheHitCorrect(cache, start, end, compute);
    } else if first <= start <= last {
      ExtendAfterCorrect(cache, start, end, compute);
    } else if start < first && first <= end <= last {
      ExtendBeforeCorrect(cache, start, end, compute);
    } else {
      OtherwiseRecomputed(cache, start, end, compute);
      assert OneRecordPerDay(compute(start, end), start, end);
    }
  }

  /** A one-day request for a cached day is answered with that day's cached record alone,
      whatever the fallback does. */
  lemma SingleCachedDay(cache: seq<DailyRecord>, k: nat, compute: (Day, Day) -> seq<DailyRecord>)
    requires WellFormedCache(cache)
    requires k < |cache|
    ensures DnsDataLine(cache, cache[k].name, cache[k].name, compute) == Success([cache[k]])
  {
    var d := cache[k].name;
    CacheHitCorrect(cache, d, d, compute);
    assert cache[k..k + 1] == [cache[k]];
  }
}
