/**
 * The usage endpoints of the activity server: the hours/minutes/seconds
 * decomposition of a sample count, the `M/D/YYYY` date key the endpoints
 * match on, and the meaning of the four aggregation pipelines (match a
 * date, count per application, sort by count descending, limit).
 *
 * Today is a day number; `calendar` gives the local civil date of a day
 * number, and yesterday is the day number before today.
 *
 * Every stored record is one focus sample taken once a second, so a count
 * of records is a number of seconds.
 */
module UsageAggregation {
  import opened DateText

  /** One stored sample: its local date key, time of day and application. */
  datatype ActivityRecord = ActivityRecord(date: string, time: string, application: string)

  datatype Duration = Duration(hours: nat, minutes: nat, seconds: nat)

  /** The response of an endpoint: a value, or the 404 answer that no
      sample matched. */
  datatype Response<T> = Ok(value: T) | NotFound

  datatype AppCount = AppCount(application: string, count: nat)

  datatype MostUsed = MostUsed(application: string, totalUsage: Duration)

  datatype AppUsage = AppUsage(id: string, totalUsage: Duration)

  // ---------------------------------------------------------------------
  // Hours, minutes and seconds

  function TotalSeconds(d: Duration): nat {
    d.hours * 3600 + d.minutes * 60 + d.seconds
  }

  predicate Canonical(d: Duration) {
    d.minutes < 60 && d.seconds < 60
  }

  lemma DivModSixty(n: nat, quotient: nat, remainder: nat)
    requires remainder < 60 && n == 60 * quotient + remainder
    ensures n / 60 == quotient && n % 60 == remainder
  {
  }

  lemma DivModHour(n: nat, quotient: nat, remainder: nat)
    requires remainder < 3600 && n == 3600 * quotient + remainder
    ensures n / 3600 == quotient && n % 3600 == remainder
  {
  }

  /** convertSecondsToHMS: a canonical decomposition that adds back up to
      the given number of seconds. */
  function ConvertSecondsToHMS(seconds: nat): (d: Duration)
    ensures Canonical(d)
    ensures TotalSeconds(d) == seconds
  {
    var hours := seconds / 3600;
    var minutes := (seconds % 3600) / 60;
    var rest := (seconds % 3600) % 60;
    DivModSixty(seconds, hours * 60 + minutes, rest);
    Duration(hours, minutes, seconds % 60)
  }

  /** The decomposition is the only canonical one: converting the seconds
      of a canonical duration gives that duration back. */
  lemma ConvertCanonicalDuration(d: Duration)
    requires Canonical(d)
    ensures ConvertSecondsToHMS(TotalSeconds(d)) == d
  {
    var s := TotalSeconds(d);
    DivModHour(s, d.hours, d.minutes * 60 + d.seconds);
    DivModSixty(d.minutes * 60 + d.seconds, d.minutes, d.seconds);
    DivModSixty(s, d.hours * 60 + d.minutes, d.seconds);
  }

  // ---------------------------------------------------------------------
  // Date keys

  /** The key a day's samples are stored under: 1-based month, day and
      year, separated by `/`, none of them zero-padded. */
  function MonthDayYearKey(d: CivilDate): string {
    DecimalString(d.month0 + 1) + "/" + DecimalString(d.day) + "/" + DecimalString(d.year)
  }

  /** The key splits at its two slashes into three digit fields without
      leading zeros that read back as the month, the day and the year. */
  lemma MonthDayYearKeyFields(d: CivilDate)
    requires ValidDate(d)
    ensures var key := MonthDayYearKey(d);
      var i := |DecimalString(d.month0 + 1)|;
      var j := i + 1 + |DecimalString(d.day)|;
      && j < |key| && key[i] == '/' && key[j] == '/'
      && AllDigits(key[..i]) && AllDigits(key[i + 1..j]) && AllDigits(key[j + 1..])
      && ParseDecimal(key[..i]) == d.month0 + 1
      && ParseDecimal(key[i + 1..j]) == d.day
      && ParseDecimal(key[j + 1..]) == d.year
      && key[0] != '0' && key[i + 1] != '0'
  {
    var m, dd, y := DecimalString(d.month0 + 1), DecimalString(d.day), DecimalString(d.year);
    var key := MonthDayYearKey(d);
    assert key == m + ['/'] + dd + ['/'] + y;
    assert key[..|m|] == m;
    assert key[|m| + 1..|m| + 1 + |dd|] == dd;
    assert key[|m| + 1 + |dd| + 1..] == y;
  }

  /** Distinct days have distinct keys, so matching on the key selects
      exactly one day's samples. */
  lemma MonthDayYearKeyInjective(a: CivilDate, b: CivilDate)
    ensures MonthDayYearKey(a) == MonthDayYearKey(b) ==> a == b
  {
    if MonthDayYearKey(a) == MonthDayYearKey(b) {
      var ma, da, ya := DecimalString(a.month0 + 1), DecimalString(a.day), DecimalString(a.year);
      var mb, db, yb := DecimalString(b.month0 + 1), DecimalString(b.day), DecimalString(b.year);
      DigitsHaveNoSeparator(ma, '/');
      DigitsHaveNoSeparator(mb, '/');
      DigitsHaveNoSeparator(da, '/');
      DigitsHaveNoSeparator(db, '/');
      assert MonthDayYearKey(a) == ma + ['/'] + (da + "/" + ya);
      assert MonthDayYearKey(b) == mb + ['/'] + (db + "/" + yb);
      assert da + "/" + ya == da + ['/'] + ya;
      assert db + "/" + yb == db + ['/'] + yb;
      SplitAtSeparator(ma, da + "/" + ya, mb, db + "/" + yb, '/');
      SplitAtSeparator(da, ya, db, yb, '/');
      DecimalStringInjective(a.month0 + 1, b.month0 + 1);
      DecimalStringInjective(a.day, b.day);
      DecimalStringInjective(a.year, b.year);
    }
  }

  lemma MonthDayYearKeyExample()
    ensures MonthDayYearKey(CivilDate(2024, 2, 5)) == "3/5/2024"
  {
    assert DecimalString(2024) == DecimalString(202) + "4";
    assert DecimalString(202) == DecimalString(20) + "2";
    assert DecimalString(20) == DecimalString(2) + "0";
  }

  // ---------------------------------------------------------------------
  // Reference counts

  /** The number of samples of `app` stored under `date`. */
  function UsageOn(records: seq<ActivityRecord>, date: string, app: string): nat {
    if records == [] then 0
    else
      var r := records[|records| - 1];
      UsageOn(records[..|records| - 1], date, app) + (if r.date == date && r.application == app then 1 else 0)
  }

  /** The number of samples stored under `date`. */
  function RecordsOn(records: seq<ActivityRecord>, date: string): nat {
    if records == [] then 0
    else
      var r := records[|records| - 1];
      RecordsOn(records[..|records| - 1], date) + (if r.date == date then 1 else 0)
  }

  // ---------------------------------------------------------------------
  // Pipeline stages

  /** `$match: { date }`. */
  function Matching(records: seq<ActivityRecord>, date: string): seq<ActivityRecord> {
    if records == [] then []
    else
      var r := records[|records| - 1];
      Matching(records[..|records| - 1], date) + (if r.date == date then [r] else [])
  }

  /** `$sum: 1` over the records of one application. */
  function Count(records: seq<ActivityRecord>, app: string): nat {
    if records == [] then 0
    else Count(records[..|records| - 1], app) + (if records[|records| - 1].application == app then 1 else 0)
  }

  /** The distinct applications, in order of first appearance. */
  function Applications(records: seq<ActivityRecord>): seq<string> {
    if records == [] then []
    else
      var front := Applications(records[..|records| - 1]);
      var app := records[|records| - 1].application;
      if app in front then front else front + [app]
  }

  /** `$group: { _id: "$application", ...: { $sum: 1 } }`. */
  function GroupByApplication(records: seq<ActivityRecord>): seq<AppCount> {
    var apps := Applications(records);
    seq(|apps|, i requires 0 <= i < |apps| => AppCount(apps[i], Count(records, apps[i])))
  }

  function InsertByCount(x: AppCount, ranked: seq<AppCount>): seq<AppCount> {
    if ranked == [] then [x]
    else if ranked[0].count <= x.count then [x] + ranked
    else [ranked[0]] + InsertByCount(x, ranked[1..])
  }

  /** `$sort: { ...: -1 }`.  The store promises no order among equal
      counts, and neither does this model. */
  function SortByCountDescending(xs: seq<AppCount>): seq<AppCount> {
    if xs == [] then [] else InsertByCount(xs[0], SortByCountDescending(xs[1..]))
  }

  /** The ranking every count endpoint is built on. */
  function Ranked(records: seq<ActivityRecord>): seq<AppCount> {
    SortByCountDescending(GroupByApplication(records))
  }

  predicate NonIncreasing(xs: seq<AppCount>) {
    forall i, j :: 0 <= i < j < |xs| ==> xs[i].count >= xs[j].count
  }

  predicate DistinctApplications(xs: seq<AppCount>) {
    forall i, j :: 0 <= i < j < |xs| ==> xs[i].application != xs[j].application
  }

  function SumCounts(xs: seq<AppCount>): nat {
    if xs == [] then 0 else xs[0].count + SumCounts(xs[1..])
  }

  // ---------------------------------------------------------------------
  // Endpoints

  /** `/most_used_app`: today's top application and its usage. */
  function MostUsedApp(records: seq<ActivityRecord>, calendar: int -> CivilDate, today: int): Response<MostUsed> {
    var ranked := Ranked(Matching(records, MonthDayYearKey(calendar(today))));
    if |ranked| > 0 then Ok(MostUsed(ranked[0].application, ConvertSecondsToHMS(ranked[0].count)))
    else NotFound
  }

  /** `/most_used_app_yesterday`: yesterday's top application with its raw
      count, not converted to hours, minutes and seconds.  Yesterday is the
      day before today, `setDate(getDate() - 1)`. */
  function MostUsedAppYesterday(records: seq<ActivityRecord>, calendar: int -> CivilDate, today: int): Response<AppCount> {
    var ranked := Ranked(Matching(records, MonthDayYearKey(calendar(today - 1))));
    if |ranked| > 0 then Ok(ranked[0]) else NotFound
  }

  /** `/all_applications`: every application over all dates, by usage. */
  function AllApplications(records: seq<ActivityRecord>): Response<seq<AppUsage>> {
    var ranked := Ranked(records);
    if |ranked| > 0 then
      Ok(seq(|ranked|, i requires 0 <= i < |ranked| =>
        AppUsage(ranked[i].application, ConvertSecondsToHMS(ranked[i].count))))
    else NotFound
  }

  /** `/total_usage`: the number of samples stored under today's key. */
  function TotalUsage(records: seq<ActivityRecord>, calendar: int -> CivilDate, today: int): Response<Duration> {
    var matched := Matching(records, MonthDayYearKey(calendar(today)));
    if |matched| > 0 then Ok(ConvertSecondsToHMS(|matched|)) else NotFound
  }

  // ---------------------------------------------------------------------
  // Facts about the stages

  /** Matching a date then counting is the same as counting the samples of
      that date directly. */
  lemma {:induction false} MatchingCounts(records: seq<ActivityRecord>, date: string, app: string)
    ensures Count(Matching(records, date), app) == UsageOn(records, date, app)
    ensures |Matching(records, date)| == RecordsOn(records, date)
  {
    if records != [] {
      var front, r := records[..|records| - 1], records[|records| - 1];
      MatchingCounts(front, date, app);
      var m := Matching(front, date);
      if r.date == date {
        var m' := m + [r];
        assert Matching(records, date) == m';
        assert m'[..|m'| - 1] == m;
      } else {
        assert Matching(records, date) == m + [] == m;
      }
    }
  }

  predicate DistinctStrings(s: seq<string>) {
    forall i, j :: 0 <= i < j < |s| ==> s[i] != s[j]
  }

  /** Each application that occurs is listed once, and only those. */
  lemma {:induction false} ApplicationsFacts(records: seq<ActivityRecord>)
    ensures DistinctStrings(Applications(records))
    ensures forall app :: app in Applications(records) <==> Count(records, app) > 0
  {
    if records != [] {
      ApplicationsFacts(records[..|records| - 1]);
    }
  }

  function CountsOver(records: seq<ActivityRecord>, apps: seq<string>): nat {
    if apps == [] then 0 else Count(records, apps[0]) + CountsOver(records, apps[1..])
  }

  lemma {:induction false} CountsOverAppendApp(records: seq<ActivityRecord>, apps: seq<string>, x: string)
    ensures CountsOver(records, apps + [x]) == CountsOver(records, apps) + Count(records, x)
  {
    if apps != [] {
      assert (apps + [x])[1..] == apps[1..] + [x];
      CountsOverAppendApp(records, apps[1..], x);
    }
  }

  lemma {:induction false} CountsOverAppendRecord(records: seq<ActivityRecord>, r: ActivityRecord, apps: seq<string>)
    ensures CountsOver(records + [r], apps) == CountsOver(records, apps) + multiset(apps)[r.application]
  {
    if apps != [] {
      var s := records + [r];
      assert s[..|s| - 1] == records;
      CountsOverAppendRecord(records, r, apps[1..]);
      assert apps == [apps[0]] + apps[1..];
    }
  }

  lemma {:induction false} DistinctOccursOnce(apps: seq<string>, x: string)
    requires DistinctStrings(apps) && x in apps
    ensures multiset(apps)[x] == 1
  {
    assert apps == [apps[0]] + apps[1..];
    if apps[0] == x {
      assert x !in apps[1..];
    } else {
      DistinctOccursOnce(apps[1..], x);
    }
  }

  lemma {:induction false} CountsOverApplications(records: seq<ActivityRecord>)
    ensures CountsOver(records, Applications(records)) == |records|
  {
    if records != [] {
      var front, r := records[..|records| - 1], records[|records| - 1];
      assert records == front + [r];
      var apps := Applications(front);
      CountsOverApplications(front);
      ApplicationsFacts(front);
      CountsOverAppendRecord(front, r, apps);
      if r.application in apps {
        DistinctOccursOnce(apps, r.application);
      } else {
        CountsOverAppendApp(records, apps, r.application);
      }
    }
  }

  lemma {:induction false} SumCountsMatches(records: seq<ActivityRecord>, xs: seq<AppCount>, apps: seq<string>)
    requires |xs| == |apps|
    requires forall i :: 0 <= i < |xs| ==> xs[i].count == Count(records, apps[i])
    ensures SumCounts(xs) == CountsOver(records, apps)
  {
    if xs != [] {
      SumCountsMatches(records, xs[1..], apps[1..]);
    }
  }

  /** `$group` loses no sample: the per-application counts add up to the
      number of records, each application appears once, and each count is
      that application's number of records. */
  lemma GroupByApplicationFacts(records: seq<ActivityRecord>)
    ensures var grouped := GroupByApplication(records);
      && SumCounts(grouped) == |records|
      && DistinctApplications(grouped)
      && (forall i :: 0 <= i < |grouped| ==>
            grouped[i].count == Count(records, grouped[i].application) > 0)
      && (forall app :: Count(records, app) > 0 ==>
            exists i :: 0 <= i < |grouped| && grouped[i].application == app)
  {
    var apps := Applications(records);
    var grouped := GroupByApplication(records);
    ApplicationsFacts(records);
    SumCountsMatches(records, grouped, apps);
    CountsOverApplications(records);
    forall app | Count(records, app) > 0
      ensures exists i :: 0 <= i < |grouped| && grouped[i].application == app
    {
      var i :| 0 <= i < |apps| && apps[i] == app;
      assert grouped[i].application == app;
    }
    forall i | 0 <= i < |grouped|
      ensures grouped[i].count == Count(records, grouped[i].application) > 0
    {
      assert apps[i] in apps;
    }
  }

  lemma {:induction false} InsertByCountFacts(x: AppCount, ranked: seq<AppCount>)
    ensures multiset(InsertByCount(x, ranked)) == multiset(ranked) + multiset{x}
    ensures SumCounts(InsertByCount(x, ranked)) == x.count + SumCounts(ranked)
    ensures NonIncreasing(ranked) ==> NonIncreasing(InsertByCount(x, ranked))
    ensures DistinctApplications(ranked) && (forall y :: y in ranked ==> y.application != x.application)
      ==> DistinctApplications(InsertByCount(x, ranked))
  {
    InsertByCountPermutes(x, ranked);
    InsertByCountSum(x, ranked);
    if NonIncreasing(ranked) {
      InsertByCountOrdered(x, ranked);
    }
    if DistinctApplications(ranked) && (forall y :: y in ranked ==> y.application != x.application) {
      InsertByCountDistinct(x, ranked);
    }
  }

  lemma {:induction false} InsertByCountPermutes(x: AppCount, ranked: seq<AppCount>)
    ensures multiset(InsertByCount(x, ranked)) == multiset(ranked) + multiset{x}
  {
    if ranked != [] && ranked[0].count > x.count {
      InsertByCountPermutes(x, ranked[1..]);
      assert ranked == [ranked[0]] + ranked[1..];
    }
  }

  lemma {:induction false} InsertByCountSum(x: AppCount, ranked: seq<AppCount>)
    ensures SumCounts(InsertByCount(x, ranked)) == x.count + SumCounts(ranked)
  {
    if ranked != [] && ranked[0].count > x.count {
      InsertByCountSum(x, ranked[1..]);
      var inserted := [ranked[0]] + InsertByCount(x, ranked[1..]);
      assert inserted[1..] == InsertByCount(x, ranked[1..]);
    } else if ranked != [] {
      assert ([x] + ranked)[1..] == ranked;
    }
  }

  lemma {:induction false} InsertByCountOrdered(x: AppCount, ranked: seq<AppCount>)
    requires NonIncreasing(ranked)
    ensures NonIncreasing(InsertByCount(x, ranked))
  {
    if ranked != [] && ranked[0].count > x.count {
      var head, rest := ranked[0], ranked[1..];
      InsertByCountOrdered(x, rest);
      InsertByCountPermutes(x, rest);
      var inserted := InsertByCount(x, rest);
      forall k | 0 <= k < |inserted|
        ensures inserted[k].count <= head.count
      {
        assert inserted[k] in multiset(inserted);
        if inserted[k] != x {
          assert inserted[k] in rest;
        }
      }
    }
  }

  lemma {:induction false} InsertByCountDistinct(x: AppCount, ranked: seq<AppCount>)
    requires DistinctApplications(ranked)
    requires forall y :: y in ranked ==> y.application != x.application
    ensures DistinctApplications(InsertByCount(x, ranked))
  {
    if ranked != [] && ranked[0].count > x.count {
      var head, rest := ranked[0], ranked[1..];
      InsertByCountDistinct(x, rest);
      InsertByCountPermutes(x, rest);
      var inserted := InsertByCount(x, rest);
      forall k | 0 <= k < |inserted|
        ensures inserted[k].application != head.application
      {
        assert inserted[k] in multiset(inserted);
        if inserted[k] != x {
          var j :| 0 <= j < |rest| && rest[j] == inserted[k];
          assert ranked[j + 1] == inserted[k];
        }
      }
    }
  }

  /** `$sort` by count descending: a permutation of its input, ordered by
      non-increasing count. */
  lemma {:induction false} SortByCountDescendingFacts(xs: seq<AppCount>)
    ensures multiset(SortByCountDescending(xs)) == multiset(xs)
    ensures SumCounts(SortByCountDescending(xs)) == SumCounts(xs)
    ensures NonIncreasing(SortByCountDescending(xs))
    ensures DistinctApplications(xs) ==> DistinctApplications(SortByCountDescending(xs))
  {
    if xs != [] {
      var rest := xs[1..];
      assert xs == [xs[0]] + rest;
      SortByCountDescendingFacts(rest);
      var sortedRest := SortByCountDescending(rest);
      InsertByCountFacts(xs[0], sortedRest);
      if DistinctApplications(xs) {
        forall y | y in sortedRest
          ensures y.application != xs[0].application
        {
          assert y in multiset(rest);
          var j :| 0 <= j < |rest| && rest[j] == y;
          assert xs[j + 1] == y;
        }
      }
    }
  }

  /** The ranking behind every count endpoint: one entry per application
      that occurs, with its exact count, by non-increasing count, counts
      summing to the number of records; empty exactly when there are no
      records. */
  lemma RankedFacts(records: seq<ActivityRecord>)
    ensures var ranked := Ranked(records);
      && (ranked == [] <==> records == [])
      && NonIncreasing(ranked)
      && DistinctApplications(ranked)
      && SumCounts(ranked) == |records|
      && (forall i :: 0 <= i < |ranked| ==>
            ranked[i].count == Count(records, ranked[i].application) > 0)
      && (forall app :: Count(records, app) > 0 ==>
            exists i :: 0 <= i < |ranked| && ranked[i].application == app)
  {
    var grouped := GroupByApplication(records);
    var ranked := Ranked(records);
    GroupByApplicationFacts(records);
    SortByCountDescendingFacts(grouped);
    forall i | 0 <= i < |ranked|
      ensures ranked[i].count == Count(records, ranked[i].application) > 0
    {
      assert ranked[i] in multiset(grouped);
    }
    forall app | Count(records, app) > 0
      ensures exists i :: 0 <= i < |ranked| && ranked[i].application == app
    {
      var k :| 0 <= k < |grouped| && grouped[k].application == app;
      assert grouped[k] in multiset(ranked);
    }
    if records != [] {
      assert Count(records, records[|records| - 1].application) > 0;
    }
  }

  /** The first ranked application has the largest count; no tie-break is
      implied. */
  lemma TopIsMaximal(records: seq<ActivityRecord>)
    requires records != []
    ensures Ranked(records) != []
    ensures forall app :: Count(records, app) <= Ranked(records)[0].count
  {
    var ranked := Ranked(records);
    RankedFacts(records);
    forall app | Count(records, app) > 0
      ensures Count(records, app) <= ranked[0].count
    {
      var i :| 0 <= i < |ranked| && ranked[i].application == app;
    }
  }

  // ---------------------------------------------------------------------
  // Endpoint properties

  /** `/most_used_app` answers 404 exactly when no sample is stored under
      today's key; otherwise it names an application used today whose
      usage adds up to its sample count, and no application was used more. */
  lemma MostUsedAppSpec(records: seq<ActivityRecord>, calendar: int -> CivilDate, today: int)
    ensures var key := MonthDayYearKey(calendar(today));
      && (MostUsedApp(records, calendar, today) == NotFound <==> RecordsOn(records, key) == 0)
      && (MostUsedApp(records, calendar, today).Ok? ==>
            var top := MostUsedApp(records, calendar, today).value;
            && Canonical(top.totalUsage)
            && TotalSeconds(top.totalUsage) == UsageOn(records, key, top.application) > 0
            && forall app :: UsageOn(records, key, app) <= UsageOn(records, key, top.application))
  {
    var key := MonthDayYearKey(calendar(today));
    var matched := Matching(records, key);
    MatchingCounts(records, key, "");
    RankedFacts(matched);
    if matched != [] {
      TopIsMaximal(matched);
      forall app ensures UsageOn(records, key, app) == Count(matched, app) {
        MatchingCounts(records, key, app);
      }
    }
  }

  /** `/most_used_app_yesterday`: the same ranking on yesterday's key, but
      the answer carries the raw sample count. */
  lemma MostUsedAppYesterdaySpec(records: seq<ActivityRecord>, calendar: int -> CivilDate, today: int)
    ensures var key := MonthDayYearKey(calendar(today - 1));
      && (MostUsedAppYesterday(records, calendar, today) == NotFound <==> RecordsOn(records, key) == 0)
      && (MostUsedAppYesterday(records, calendar, today).Ok? ==>
            var top := MostUsedAppYesterday(records, calendar, today).value;
            && top.count == UsageOn(records, key, top.application) > 0
            && forall app :: UsageOn(records, key, app) <= top.count)
  {
    var key := MonthDayYearKey(calendar(today - 1));
    var matched := Matching(records, key);
    MatchingCounts(records, key, "");
    RankedFacts(matched);
    if matched != [] {
      TopIsMaximal(matched);
      forall app ensures UsageOn(records, key, app) == Count(matched, app) {
        MatchingCounts(records, key, app);
      }
    }
  }

  function SumSeconds(apps: seq<AppUsage>): nat {
    if apps == [] then 0 else TotalSeconds(apps[0].totalUsage) + SumSeconds(apps[1..])
  }

  lemma {:induction false} SumSecondsOfConverted(ranked: seq<AppCount>, list: seq<AppUsage>)
    requires |list| == |ranked|
    requires forall i :: 0 <= i < |list| ==> list[i].totalUsage == ConvertSecondsToHMS(ranked[i].count)
    ensures SumSeconds(list) == SumCounts(ranked)
  {
    if list != [] {
      SumSecondsOfConverted(ranked[1..], list[1..]);
    }
  }

  /** `/all_applications` answers 404 only when nothing is stored;
      otherwise one entry per application, each with its exact usage, by
      non-increasing usage, adding up to the number of samples. */
  lemma AllApplicationsSpec(records: seq<ActivityRecord>)
    ensures AllApplications(records) == NotFound <==> records == []
    ensures AllApplications(records).Ok? ==>
      var list := AllApplications(records).value;
      && (forall i :: 0 <= i < |list| ==>
            Canonical(list[i].totalUsage) && TotalSeconds(list[i].totalUsage) == Count(records, list[i].id) > 0)
      && (forall i, j :: 0 <= i < j < |list| ==>
            list[i].id != list[j].id && TotalSeconds(list[i].totalUsage) >= TotalSeconds(list[j].totalUsage))
      && (forall app :: Count(records, app) > 0 ==> exists i :: 0 <= i < |list| && list[i].id == app)
      && SumSeconds(list) == |records|
  {
    var ranked := Ranked(records);
    RankedFacts(records);
    if records != [] {
      var list := AllApplications(records).value;
      SumSecondsOfConverted(ranked, list);
      forall app | Count(records, app) > 0
        ensures exists i :: 0 <= i < |list| && list[i].id == app
      {
        var i :| 0 <= i < |ranked| && ranked[i].application == app;
        assert list[i].id == app;
      }
    }
  }

  /** `/total_usage` answers 404 exactly when no sample is stored under
      today's key, and otherwise that many seconds. */
  lemma TotalUsageSpec(records: seq<ActivityRecord>, calendar: int -> CivilDate, today: int)
    ensures var key := MonthDayYearKey(calendar(today));
      && (TotalUsage(records, calendar, today) == NotFound <==> RecordsOn(records, key) == 0)
      && (TotalUsage(records, calendar, today).Ok? ==>
            Canonical(TotalUsage(records, calendar, today).value)
            && TotalSeconds(TotalUsage(records, calendar, today).value) == RecordsOn(records, key) > 0)
  {
    MatchingCounts(records, MonthDayYearKey(calendar(today)), "");
  }
}
