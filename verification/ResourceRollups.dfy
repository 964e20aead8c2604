/**
 * Two-level resource rollups: raw readings into hourly rows
 * (internal/scanner/discovery/resource_rollup.go), hourly rows into daily ones and the
 * purges (internal/jobs/resource_rollup.go), over the tables of
 * internal/repo/resource_rollups.go. Averages are exact reals.
 */
module ResourceRollups {
  import opened Common

  const HOUR := 3600
  const HOURS: nat := 24
  const DAY := HOURS * HOUR

  // ---- The tables ---------------------------------------------------------------

  /** GROUP BY source_id, source_type, metric. */
  datatype Group = Group(source: string, sourceType: string, metric: string)

  datatype Reading = Reading(group: Group, value: real, at: int)

  datatype Period = Hour | Day

  /** The key of a rollup does not mention the source type. */
  datatype Key = Key(source: string, metric: string, period: Period, start: int)

  datatype Rollup = Rollup(sourceType: string, avg: real, min: real, max: real)

  type Table = map<Key, Rollup>

  // ---- AVG, MIN and MAX -----------------------------------------------------------

  /** What an aggregate keeps of a group: nothing while no row has been seen. */
  datatype Stats = Nothing | Stats(count: nat, sum: real, least: real, greatest: real)

  function Merge(a: Stats, b: Stats): Stats {
    if a.Nothing? then b
    else if b.Nothing? then a
    else Stats(a.count + b.count, a.sum + b.sum, if a.least <= b.least then a.least else b.least,
               if a.greatest >= b.greatest then a.greatest else b.greatest)
  }

  predicate Counts(r: Reading, g: Group, lo: int, hi: int) { r.group == g && lo <= r.at < hi }

  function StatsOf(readings: seq<Reading>, g: Group, lo: int, hi: int): Stats
    decreases |readings|
  {
    if readings == [] then Nothing
    else
      var last := readings[|readings| - 1];
      var rest := StatsOf(readings[..|readings| - 1], g, lo, hi);
      if Counts(last, g, lo, hi) then Merge(rest, Stats(1, last.value, last.value, last.value)) else rest
  }

  /** The statistics mean what the SQL functions mean. */
  lemma {:induction false} StatsMean(readings: seq<Reading>, g: Group, lo: int, hi: int)
    ensures var s := StatsOf(readings, g, lo, hi);
            && (s.Nothing? <==> forall i :: 0 <= i < |readings| ==> !Counts(readings[i], g, lo, hi))
            && (s.Stats? ==>
                 && (forall i :: 0 <= i < |readings| && Counts(readings[i], g, lo, hi) ==> s.least <= readings[i].value <= s.greatest)
                 && (exists i :: 0 <= i < |readings| && Counts(readings[i], g, lo, hi) && readings[i].value == s.least)
                 && (exists i :: 0 <= i < |readings| && Counts(readings[i], g, lo, hi) && readings[i].value == s.greatest))
    decreases |readings|
  {
    if readings != [] {
      var rest := readings[..|readings| - 1];
      StatsMean(rest, g, lo, hi);
      assert forall i :: 0 <= i < |rest| ==> rest[i] == readings[i];
    }
  }

  /** The sum of the values at some positions. */
  function SumAt(readings: seq<Reading>, at: seq<nat>): real
    requires forall k :: 0 <= k < |at| ==> at[k] < |readings|
    decreases |at|
  {
    if at == [] then 0.0 else SumAt(readings, at[..|at| - 1]) + readings[at[|at| - 1]].value
  }

  lemma {:induction false} SumAtPrefix(readings: seq<Reading>, n: nat, at: seq<nat>)
    requires n <= |readings| && forall k :: 0 <= k < |at| ==> at[k] < n
    ensures SumAt(readings[..n], at) == SumAt(readings, at)
    decreases |at|
  {
    if at != [] {
      SumAtPrefix(readings, n, at[..|at| - 1]);
    }
  }

  /** They count and add up exactly the group's readings of the window, each once. */
  lemma {:induction false} StatsAddUp(readings: seq<Reading>, g: Group, lo: int, hi: int) returns (at: seq<nat>)
    ensures forall k, m :: 0 <= k < m < |at| ==> at[k] < at[m]
    ensures forall i: nat :: i in at <==> i < |readings| && readings[i].group == g && lo <= readings[i].at < hi
    ensures forall k :: 0 <= k < |at| ==> at[k] < |readings|
    ensures var s := StatsOf(readings, g, lo, hi);
            if s.Nothing? then at == [] else at != [] && s.count == |at| && s.sum == SumAt(readings, at)
    decreases |readings|
  {
    hide Merge, SumAt;
    if readings == [] {
      return [];
    }
    var n := |readings| - 1;
    at := StatsAddUp(readings[..n], g, lo, hi);
    SumAtPrefix(readings, n, at);
    if Counts(readings[n], g, lo, hi) {
      OneMoreAddsUp(readings, n, at, StatsOf(readings[..n], g, lo, hi));
      OnePositionMore(at, n);
      at := at + [n];
    }
  }

  lemma OneMoreAddsUp(readings: seq<Reading>, n: nat, at: seq<nat>, s: Stats)
    requires n < |readings| && forall k :: 0 <= k < |at| ==> at[k] < n
    requires if s.Nothing? then at == [] else s.count == |at| && s.sum == SumAt(readings, at)
    ensures var v := readings[n].value;
            var more := Merge(s, Stats(1, v, v, v));
            more.Stats? && more.count == |at + [n]| && more.sum == SumAt(readings, at + [n])
  {
    assert (at + [n])[..|at|] == at;
  }

  /** Adjacent windows add up. */
  lemma {:induction false} WindowsMerge(readings: seq<Reading>, g: Group, lo: int, mid: int, hi: int)
    requires lo <= mid <= hi
    ensures StatsOf(readings, g, lo, hi) == Merge(StatsOf(readings, g, lo, mid), StatsOf(readings, g, mid, hi))
    decreases |readings|
  {
    if readings != [] {
      WindowsMerge(readings[..|readings| - 1], g, lo, mid, hi);
    }
  }

  lemma {:induction false} EmptyWindow(readings: seq<Reading>, g: Group, at: int)
    ensures StatsOf(readings, g, at, at) == Nothing
    decreases |readings|
  {
    if readings != [] {
      EmptyWindow(readings[..|readings| - 1], g, at);
    }
  }

  /** The sum lies between the extremes taken as often as there are values. */
  predicate Within(s: Stats) {
    s.Stats? ==> s.count > 0 && s.least * s.count as real <= s.sum <= s.greatest * s.count as real
  }

  lemma Scale(a: real, b: real, c: real)
    requires a <= b && c >= 0.0
    ensures a * c <= b * c
  {
  }

  lemma MergeWithin(a: Stats, b: Stats)
    requires Within(a) && Within(b)
    ensures Within(Merge(a, b))
  {
    if a.Stats? && b.Stats? {
      var all := Merge(a, b);
      Scale(all.least, a.least, a.count as real);
      Scale(all.least, b.least, b.count as real);
      Scale(a.greatest, all.greatest, a.count as real);
      Scale(b.greatest, all.greatest, b.count as real);
      assert all.least * all.count as real == all.least * a.count as real + all.least * b.count as real;
      assert all.greatest * all.count as real == all.greatest * a.count as real + all.greatest * b.count as real;
    }
  }

  lemma {:induction false} SumWithin(readings: seq<Reading>, g: Group, lo: int, hi: int)
    ensures Within(StatsOf(readings, g, lo, hi))
    decreases |readings|
  {
    if readings != [] {
      var rest, last := readings[..|readings| - 1], readings[|readings| - 1];
      SumWithin(rest, g, lo, hi);
      MergeWithin(StatsOf(rest, g, lo, hi), Stats(1, last.value, last.value, last.value));
    }
  }

  // ---- The two aggregations ----------------------------------------------------------

  /** AVG, MIN and MAX of the values, if there are any. */
  function MeanRow(g: Group, s: Stats): Option<Rollup> {
    if s.Nothing? || s.count == 0 then None
    else Some(Rollup(g.sourceType, s.sum / s.count as real, s.least, s.greatest))
  }

  /** The hourly row the readings of an hour call for. */
  function HourRow(readings: seq<Reading>, g: Group, start: int): Option<Rollup> {
    MeanRow(g, StatsOf(readings, g, start, start + HOUR))
  }

  /** AVG(avg), MIN(min), MAX(max) over the hourly rows of a group in the first n hours of a day. */
  /** It holds the average, the least and the greatest of the group's readings of those 3600 seconds. */
  lemma HourRowShows(readings: seq<Reading>, g: Group, start: int) returns (at: seq<nat>)
    ensures forall k, m :: 0 <= k < m < |at| ==> at[k] < at[m]
    ensures forall i: nat :: i in at <==> i < |readings| && readings[i].group == g && start <= readings[i].at < start + 3600
    ensures forall k :: 0 <= k < |at| ==> at[k] < |readings|
    ensures HourRow(readings, g, start).Some? <==> at != []
    ensures HourRow(readings, g, start).Some? ==>
              var row := HourRow(readings, g, start).value;
              && row.sourceType == g.sourceType && row.avg == SumAt(readings, at) / |at| as real
              && (forall k :: 0 <= k < |at| ==> row.min <= readings[at[k]].value <= row.max)
              && (exists k :: 0 <= k < |at| && readings[at[k]].value == row.min)
              && (exists k :: 0 <= k < |at| && readings[at[k]].value == row.max)
  {
    at := StatsAddUp(readings, g, start, start + HOUR);
    StatsMean(readings, g, start, start + HOUR);
    if at != [] {
      var s := StatsOf(readings, g, start, start + HOUR);
      var i: nat :| i < |readings| && Counts(readings[i], g, start, start + HOUR) && readings[i].value == s.least;
      var j: nat :| j < |readings| && Counts(readings[j], g, start, start + HOUR) && readings[j].value == s.greatest;
      assert i in at && j in at;
      forall k | 0 <= k < |at| ensures s.least <= readings[at[k]].value <= s.greatest {
        assert at[k] in at;
      }
    }
  }

  function DayStats(t: Table, g: Group, start: int, n: nat): Stats {
    if n == 0 then Nothing
    else
      var row := Find(t, Key(g.source, g.metric, Hour, start + (n - 1) * HOUR));
      var rest := DayStats(t, g, start, n - 1);
      if row.Some? && row.value.sourceType == g.sourceType
      then Merge(rest, Stats(1, row.value.avg, row.value.min, row.value.max)) else rest
  }

  function DayRowOver(t: Table, g: Group, start: int, n: nat): Option<Rollup> {
    MeanRow(g, DayStats(t, g, start, n))
  }

  function DayRow(t: Table, g: Group, start: int): Option<Rollup> { DayRowOver(t, g, start, HOURS) }

  function HourKey(g: Group, at: int): Key { Key(g.source, g.metric, Hour, at) }

  /** The hourly rows of the group at some starts. */
  predicate RowsAt(t: Table, g: Group, starts: seq<int>) {
    forall k :: 0 <= k < |starts| ==> Key(g.source, g.metric, Hour, starts[k]) in t
  }

  function AvgSum(t: Table, g: Group, starts: seq<int>): real
    requires RowsAt(t, g, starts)
    decreases |starts|
  {
    if starts == [] then 0.0
    else AvgSum(t, g, starts[..|starts| - 1]) + t[Key(g.source, g.metric, Hour, starts[|starts| - 1])].avg
  }

  /** What AVG, MIN and MAX keep of these rows. */
  ghost predicate Summed(t: Table, g: Group, starts: seq<int>, s: Stats) {
    && RowsAt(t, g, starts)
    && if s.Nothing? then starts == []
       else
         && starts != [] && s.count == |starts| && s.sum == AvgSum(t, g, starts)
         && (forall at :: at in starts ==> s.least <= t[HourKey(g, at)].min && t[HourKey(g, at)].max <= s.greatest)
         && (exists at :: at in starts && t[HourKey(g, at)].min == s.least)
         && (exists at :: at in starts && t[HourKey(g, at)].max == s.greatest)
  }

  lemma SummedMore(t: Table, g: Group, starts: seq<int>, s: Stats, last: int)
    requires Summed(t, g, starts, s) && HourKey(g, last) in t
    ensures var row := t[HourKey(g, last)]; Summed(t, g, starts + [last], Merge(s, Stats(1, row.avg, row.min, row.max)))
  {
    var more, row := starts + [last], t[HourKey(g, last)];
    assert more[..|starts|] == starts;
    assert forall at :: at in more <==> at in starts || at == last;
    if s.Nothing? {
      assert last in more;
    } else {
      var a :| a in starts && t[HourKey(g, a)].min == s.least;
      var b :| b in starts && t[HourKey(g, b)].max == s.greatest;
      assert a in more && b in more && last in more;
    }
  }

  lemma {:induction false} DayStatsAddUp(t: Table, g: Group, start: int, n: nat) returns (starts: seq<int>)
    ensures forall k, m :: 0 <= k < m < |starts| ==> starts[k] < starts[m]
    ensures forall at :: at in starts <==>
              && start <= at < start + n * 3600 && (at - start) % 3600 == 0
              && var k := Key(g.source, g.metric, Hour, at); k in t && t[k].sourceType == g.sourceType
    ensures Summed(t, g, starts, DayStats(t, g, start, n))
  {
    hide Summed, Merge;
    if n == 0 {
      starts := [];
      NothingSummed(t, g);
      return;
    }
    var before := DayStatsAddUp(t, g, start, n - 1);
    var last := start + (n - 1) * HOUR;
    starts := before;
    if HourKey(g, last) in t && t[HourKey(g, last)].sourceType == g.sourceType {
      SummedMore(t, g, before, DayStats(t, g, start, n - 1), last);
      starts := before + [last];
      assert forall at :: at in starts <==> at in before || at == last;
      forall k | 0 <= k < |before| ensures before[k] < last {
        assert before[k] in before;
      }
    }
    forall at ensures at in starts <==>
              && start <= at < start + n * 3600 && (at - start) % 3600 == 0
              && var k := Key(g.source, g.metric, Hour, at); k in t && t[k].sourceType == g.sourceType
    {
      OneHourMore(at - start, n);
    }
  }

  lemma NothingSummed(t: Table, g: Group)
    ensures Summed(t, g, [], Nothing)
  {
  }

  lemma OneHourMore(d: int, n: nat)
    requires n > 0
    ensures 0 <= d < n * 3600 && d % 3600 == 0 <==> d == (n - 1) * 3600 || (0 <= d < (n - 1) * 3600 && d % 3600 == 0)
  {
  }

  /**
   * The daily row holds the mean of the averages, the least minimum and the greatest maximum
   * of the group's hourly rows of those 86400 seconds, each of the same weight.
   */
  lemma DayRowShows(t: Table, g: Group, start: int) returns (starts: seq<int>)
    ensures forall k, m :: 0 <= k < m < |starts| ==> starts[k] < starts[m]
    ensures forall at :: at in starts <==>
              && start <= at < start + 86400 && (at - start) % 3600 == 0
              && var k := Key(g.source, g.metric, Hour, at); k in t && t[k].sourceType == g.sourceType
    ensures RowsAt(t, g, starts)
    ensures DayRow(t, g, start).Some? <==> starts != []
    ensures DayRow(t, g, start).Some? ==>
              var row := DayRow(t, g, start).value;
              && row.sourceType == g.sourceType && row.avg == AvgSum(t, g, starts) / |starts| as real
              && (forall at :: at in starts ==> row.min <= t[HourKey(g, at)].min && t[HourKey(g, at)].max <= row.max)
              && (exists at :: at in starts && t[HourKey(g, at)].min == row.min)
              && (exists at :: at in starts && t[HourKey(g, at)].max == row.max)
  {
    starts := DayStatsAddUp(t, g, start, HOURS);
  }

  // ---- Rows against the readings they were made of --------------------------------------

  /** The readings seen in the first n hours, whatever was seen of each hour. */
  function Together(seen: int -> Stats, start: int, n: nat): Stats {
    if n == 0 then Nothing else Merge(Together(seen, start, n - 1), seen(start + (n - 1) * HOUR))
  }

  /** The row of the hour is the one of these readings; without any there is no row. */
  predicate RowShows(t: Table, g: Group, s: Stats, at: int) { Within(s) && Find(t, HourKey(g, at)) == MeanRow(g, s) }

  predicate RowsShow(t: Table, g: Group, seen: int -> Stats, start: int, n: nat) {
    n == 0 || (RowsShow(t, g, seen, start, n - 1) && RowShows(t, g, seen(start + (n - 1) * HOUR), start + (n - 1) * HOUR))
  }

  /** All the readings of each hour. */
  function Raw(readings: seq<Reading>, g: Group): int -> Stats { (at: int) => StatsOf(readings, g, at, at + HOUR) }

  /** All hours of which readings were seen have the same number of them. */
  predicate EvenlySampled(seen: int -> Stats, start: int, n: nat, samples: nat) {
    n == 0 || (EvenlySampled(seen, start, n - 1, samples) && SampledAlike(seen(start + (n - 1) * HOUR), samples))
  }

  predicate SampledAlike(s: Stats, samples: nat) { s.Nothing? || s.count == samples }

  lemma Quotient(lo: real, sum: real, hi: real, count: real)
    requires count > 0.0 && lo * count <= sum <= hi * count
    ensures lo <= sum / count <= hi && sum / count * count == sum
  {
  }

  /** What a row says as one more value of the level above. */
  function RowStats(row: Option<Rollup>): Stats {
    if row.None? then Nothing else Stats(1, row.value.avg, row.value.min, row.value.max)
  }

  /** Same extremes, and a mean that lies between them. */
  predicate SameExtremes(raw: Stats, day: Stats) {
    && raw.Nothing? == day.Nothing? && Within(day)
    && (raw.Stats? ==> day.least == raw.least && day.greatest == raw.greatest)
  }

  /** Every value of the upper level stands for the same number of values below. */
  predicate SameTotals(raw: Stats, day: Stats, samples: nat) {
    && raw.Nothing? == day.Nothing?
    && (raw.Stats? ==> raw.count == day.count * samples && raw.sum == day.sum * samples as real)
  }

  lemma MergeExtremes(a: Stats, x: Stats, b: Stats, y: Stats)
    requires SameExtremes(a, x) && SameExtremes(b, y)
    ensures SameExtremes(Merge(a, b), Merge(x, y))
  {
    MergeWithin(x, y);
  }

  lemma MergeTotals(a: Stats, x: Stats, b: Stats, y: Stats, samples: nat)
    requires SameTotals(a, x, samples) && SameTotals(b, y, samples)
    ensures SameTotals(Merge(a, b), Merge(x, y), samples)
  {
  }

  lemma HourAgrees(g: Group, s: Stats)
    requires Within(s)
    ensures SameExtremes(s, RowStats(MeanRow(g, s))) && (s.Stats? ==> SameTotals(s, RowStats(MeanRow(g, s)), s.count))
  {
    if s.Stats? {
      Quotient(s.least, s.sum, s.greatest, s.count as real);
    }
  }

  lemma NextHour(t: Table, g: Group, s: Stats, start: int, n: nat)
    requires RowShows(t, g, s, start + n * HOUR)
    ensures DayStats(t, g, start, n + 1) == Merge(DayStats(t, g, start, n), RowStats(MeanRow(g, s)))
  {
  }

  /** Whatever was seen of the hours, their rows know the extremes of the readings seen. */
  lemma {:induction false} HoursKnowTheExtremes(t: Table, g: Group, seen: int -> Stats, start: int, n: nat)
    requires RowsShow(t, g, seen, start, n)
    ensures SameExtremes(Together(seen, start, n), DayStats(t, g, start, n)) && Within(Together(seen, start, n))
  {
    if n > 0 {
      var s := seen(start + (n - 1) * HOUR);
      HoursKnowTheExtremes(t, g, seen, start, n - 1);
      NextHour(t, g, s, start, n - 1);
      HourAgrees(g, s);
      MergeExtremes(Together(seen, start, n - 1), DayStats(t, g, start, n - 1), s, RowStats(MeanRow(g, s)));
      MergeWithin(Together(seen, start, n - 1), s);
    }
  }

  lemma {:induction false} EvenHoursAddUp(t: Table, g: Group, seen: int -> Stats, start: int, n: nat, samples: nat)
    requires RowsShow(t, g, seen, start, n) && EvenlySampled(seen, start, n, samples)
    ensures SameTotals(Together(seen, start, n), DayStats(t, g, start, n), samples)
  {
    if n > 0 {
      var s := seen(start + (n - 1) * HOUR);
      EvenHoursAddUp(t, g, seen, start, n - 1, samples);
      NextHour(t, g, s, start, n - 1);
      HourAgrees(g, s);
      MergeTotals(Together(seen, start, n - 1), DayStats(t, g, start, n - 1), s, RowStats(MeanRow(g, s)), samples);
    }
  }

  function Size(s: Stats): nat { if s.Nothing? then 0 else s.count }

  /** A part of the whole: it has fewer values unless it is the whole. */
  predicate PartOf(part: Stats, whole: Stats) {
    Within(whole) && Size(part) <= Size(whole) && (part == whole <==> Size(part) == Size(whole))
  }

  lemma PartsMerge(a: Stats, x: Stats, b: Stats, y: Stats)
    requires PartOf(a, x) && PartOf(b, y)
    ensures PartOf(Merge(a, b), Merge(x, y))
    ensures Merge(a, b) == Merge(x, y) <==> a == x && b == y
  {
    MergeWithin(x, y);
    assert Size(Merge(a, b)) == Size(a) + Size(b) && Size(Merge(x, y)) == Size(x) + Size(y);
  }

  predicate SeesParts(seen: int -> Stats, readings: seq<Reading>, g: Group, start: int, n: nat) {
    n == 0 || (&& SeesParts(seen, readings, g, start, n - 1)
               && PartOf(seen(start + (n - 1) * HOUR), Raw(readings, g)(start + (n - 1) * HOUR)))
  }

  predicate SeesAll(seen: int -> Stats, readings: seq<Reading>, g: Group, start: int, n: nat) {
    n == 0 || (&& SeesAll(seen, readings, g, start, n - 1)
               && seen(start + (n - 1) * HOUR) == Raw(readings, g)(start + (n - 1) * HOUR))
  }

  /** What was seen is all the readings of the window exactly when it is so for every hour. */
  lemma {:induction false} SeenIsAllIff(seen: int -> Stats, readings: seq<Reading>, g: Group, start: int, n: nat)
    requires SeesParts(seen, readings, g, start, n)
    ensures PartOf(Together(seen, start, n), StatsOf(readings, g, start, start + n * HOUR))
    ensures Together(seen, start, n) == StatsOf(readings, g, start, start + n * HOUR) <==> SeesAll(seen, readings, g, start, n)
  {
    if n == 0 {
      EmptyWindow(readings, g, start);
    } else {
      SeenIsAllIff(seen, readings, g, start, n - 1);
      var at := start + (n - 1) * HOUR;
      WindowsMerge(readings, g, start, at, at + HOUR);
      PartsMerge(Together(seen, start, n - 1), StatsOf(readings, g, start, at), seen(at), StatsOf(readings, g, at, at + HOUR));
    }
  }

  /**
   * The daily row holds the true minimum and maximum of the readings seen in its hours, its
   * average lies between them, and it is their true mean when these hours are sampled alike.
   * It is there exactly when some reading was seen.
   */
  lemma {:induction false} DailyRowOver(t: Table, g: Group, seen: int -> Stats, start: int, n: nat, samples: nat)
    requires RowsShow(t, g, seen, start, n)
    ensures var raw, row := Together(seen, start, n), DayRowOver(t, g, start, n);
            && row.Some? == raw.Stats?
            && (row.Some? ==> row.value.min == raw.least && row.value.max == raw.greatest
                              && row.value.min <= row.value.avg <= row.value.max)
            && (row.Some? && EvenlySampled(seen, start, n, samples) ==>
                  raw.count > 0 && row.value.avg == raw.sum / raw.count as real)
  {
    HoursKnowTheExtremes(t, g, seen, start, n);
    MeanRowIs(g, Together(seen, start, n), DayStats(t, g, start, n), samples);
    if EvenlySampled(seen, start, n, samples) {
      EvenHoursAddUp(t, g, seen, start, n, samples);
    }
  }

  lemma MeanRowIs(g: Group, raw: Stats, day: Stats, samples: nat)
    requires SameExtremes(raw, day) && Within(raw)
    ensures var row := MeanRow(g, day);
            && row.Some? == raw.Stats?
            && (row.Some? ==> row.value.min == raw.least && row.value.max == raw.greatest
                              && row.value.min <= row.value.avg <= row.value.max && raw.count > 0)
            && (row.Some? && SameTotals(raw, day, samples) ==> row.value.avg == raw.sum / raw.count as real)
  {
    if day.Stats? {
      Quotient(day.least, day.sum, day.greatest, day.count as real);
      if SameTotals(raw, day, samples) {
        SameMean(day.sum, day.count, samples, raw.sum, raw.count);
      }
    }
  }

  lemma SameMean(sum: real, count: nat, samples: nat, rawSum: real, rawCount: nat)
    requires count > 0 && rawCount > 0 && rawCount == count * samples && rawSum == sum * samples as real
    ensures sum / count as real == rawSum / rawCount as real
  {
  }

  /** How far the hours' sizes are from even, weighted by their means: sum of (hours * count - total) * mean. */
  function Imbalance(seen: int -> Stats, start: int, n: nat, hours: real, total: real): real {
    if n == 0 then 0.0
    else Imbalance(seen, start, n - 1, hours, total) + Term(seen(start + (n - 1) * HOUR), hours, total)
  }

  function SumOf(s: Stats): real { if s.Nothing? then 0.0 else s.sum }

  function Gap(hours: real, raw: real, total: real, day: real): real { hours * raw - total * day }

  lemma GapAdds(hours: real, a: real, b: real, total: real, x: real, y: real)
    ensures Gap(hours, a + b, total, x + y) == Gap(hours, a, total, x) + Gap(hours, b, total, y)
  {
  }

  lemma SumMerges(a: Stats, b: Stats)
    ensures SumOf(Merge(a, b)) == SumOf(a) + SumOf(b)
  {
  }

  lemma {:induction false} ImbalanceIs(t: Table, g: Group, seen: int -> Stats, start: int, n: nat, hours: real, total: real)
    requires RowsShow(t, g, seen, start, n)
    ensures Imbalance(seen, start, n, hours, total)
         == Gap(hours, SumOf(Together(seen, start, n)), total, SumOf(DayStats(t, g, start, n)))
  {
    if n > 0 {
      var s := seen(start + (n - 1) * HOUR);
      ImbalanceIs(t, g, seen, start, n - 1, hours, total);
      NextHour(t, g, s, start, n - 1);
      HourTerm(g, s, hours, total);
      var a, x, y := Together(seen, start, n - 1), DayStats(t, g, start, n - 1), RowStats(MeanRow(g, s));
      SumMerges(a, s);
      SumMerges(x, y);
      GapAdds(hours, SumOf(a), SumOf(s), total, SumOf(x), SumOf(y));
    }
  }

  function Term(s: Stats, hours: real, total: real): real {
    if s.Nothing? || s.count == 0 then 0.0 else (hours * s.count as real - total) * (s.sum / s.count as real)
  }

  lemma HourTerm(g: Group, s: Stats, hours: real, total: real)
    requires Within(s)
    ensures Term(s, hours, total) == Gap(hours, SumOf(s), total, SumOf(RowStats(MeanRow(g, s))))
  {
    if s.Stats? {
      OneTerm(hours, s.count as real, total, s.sum);
    }
  }

  lemma OneTerm(hours: real, count: real, total: real, sum: real)
    requires count > 0.0
    ensures (hours * count - total) * (sum / count) == hours * sum - total * (sum / count)
  {
    assert hours * count * (sum / count) == hours * sum by { assert count * (sum / count) == sum; }
  }

  lemma CrossMultiplied(a: real, b: real, c: real, d: real)
    requires b > 0.0 && d > 0.0
    ensures a / b == c / d <==> Gap(b, c, d, a) == 0.0
  {
    assert a == a / b * b && c == c / d * d;
    assert b * c - d * a == (c / d - a / b) * (b * d);
  }

  /** The mean of the hourly means is the true mean of the readings seen exactly when the imbalance is zero. */
  lemma {:induction false} MeanIsTrueIff(t: Table, g: Group, seen: int -> Stats, start: int, n: nat)
    requires RowsShow(t, g, seen, start, n) && DayRowOver(t, g, start, n).Some?
    ensures var raw, day := Together(seen, start, n), DayStats(t, g, start, n);
            && raw.Stats? && raw.count > 0 && day.Stats?
            && (DayRowOver(t, g, start, n).value.avg == raw.sum / raw.count as real
                <==> Imbalance(seen, start, n, day.count as real, raw.count as real) == 0.0)
  {
    HoursKnowTheExtremes(t, g, seen, start, n);
    var raw, day := Together(seen, start, n), DayStats(t, g, start, n);
    ImbalanceIs(t, g, seen, start, n, day.count as real, raw.count as real);
    CrossMultiplied(day.sum, day.count as real, raw.sum, raw.count as real);
  }

  lemma TwoHours(t: Table, readings: seq<Reading>, g: Group, start: int)
    requires RowsShow(t, g, Raw(readings, g), start, 2)
    ensures DayStats(t, g, start, 2) == Merge(RowStats(HourRow(readings, g, start)), RowStats(HourRow(readings, g, start + HOUR)))
  {
    assert RowsShow(t, g, Raw(readings, g), start, 1);
    NextHour(t, g, StatsOf(readings, g, start + HOUR, start + HOUR + HOUR), start, 1);
    NextHour(t, g, StatsOf(readings, g, start, start + HOUR), start, 0);
  }

  /** With two hours seen as a whole that is the case exactly for equal counts or equal means. */
  lemma {:induction false} TwoHourMeanIff(t: Table, readings: seq<Reading>, g: Group, start: int, mid: int, end: int)
    requires RowsShow(t, g, Raw(readings, g), start, 2) && mid == start + HOUR && end == mid + HOUR
    requires StatsOf(readings, g, start, mid).Stats? && StatsOf(readings, g, mid, end).Stats?
    ensures var a, b, raw := StatsOf(readings, g, start, mid), StatsOf(readings, g, mid, end), StatsOf(readings, g, start, end);
            var day := DayStats(t, g, start, 2);
            && raw.Stats? && day.Stats? && a.count > 0 && b.count > 0 && raw.count > 0 && day.count == 2
            && (day.sum / 2.0 == raw.sum / raw.count as real
                <==> a.count == b.count || a.sum / a.count as real == b.sum / b.count as real)
  {
    TwoHours(t, readings, g, start);
    WindowsMerge(readings, g, start, mid, end);
    SumWithin(readings, g, start, mid);
    SumWithin(readings, g, mid, end);
    var a, b := StatsOf(readings, g, start, mid), StatsOf(readings, g, mid, end);
    MeansOfTwo(a.sum, a.count as real, b.sum, b.count as real);
  }

  lemma MeansOfTwo(s: real, c: real, u: real, d: real)
    requires c > 0.0 && d > 0.0
    ensures (s / c + u / d) / 2.0 == (s + u) / (c + d) <==> c == d || s / c == u / d
  {
  }

  // ---- The purge ----------------------------------------------------------------------

  function Since(readings: seq<Reading>, cutoff: int): seq<Reading>
    decreases |readings|
  {
    if readings == [] then []
    else
      var last := readings[|readings| - 1];
      Since(readings[..|readings| - 1], cutoff) + (if last.at < cutoff then [] else [last])
  }

  /** The purge takes the readings before the cutoff, each copy of them, and no other. */
  lemma {:induction false} SinceCounts(readings: seq<Reading>, cutoff: int, r: Reading)
    ensures multiset(Since(readings, cutoff))[r] == if r.at < cutoff then 0 else multiset(readings)[r]
    decreases |readings|
  {
    if readings != [] {
      var n := |readings| - 1;
      SinceCounts(readings[..n], cutoff, r);
      assert readings == readings[..n] + [readings[n]];
    }
  }

  /** What a purge leaves of the readings, and of the rollups: daily rows stay for ever. */
  function ReadingsLeft(readings: seq<Reading>, now: nat): seq<Reading> { Since(readings, now - 7 * DAY) }

  function RollupsLeft(t: Table, now: nat): Table {
    map k | k in t && !(k.period == Hour && k.start < now - 90 * DAY) :: t[k]
  }

  lemma {:induction false} PurgeKeepsWindow(readings: seq<Reading>, cutoff: int, g: Group, lo: int, hi: int)
    requires cutoff <= lo
    ensures StatsOf(Since(readings, cutoff), g, lo, hi) == StatsOf(readings, g, lo, hi)
    decreases |readings|
  {
    if readings != [] {
      var rest, last := readings[..|readings| - 1], readings[|readings| - 1];
      PurgeKeepsWindow(rest, cutoff, g, lo, hi);
      if last.at >= cutoff {
        assert (Since(rest, cutoff) + [last])[..|Since(rest, cutoff)|] == Since(rest, cutoff);
      } else {
        assert Since(readings, cutoff) == Since(rest, cutoff);
      }
    }
  }

  /** The last hour that has ended. */
  function HourStart(now: nat): (start: int)
    ensures start % 3600 == 0 && start + 3600 <= now < start + 2 * 3600
  {
    now - now % HOUR - HOUR
  }

  /** The last day that has ended. */
  function DayStart(now: nat): (start: int)
    ensures start % 86400 == 0 && start + 86400 <= now < start + 2 * 86400
  {
    now - now % DAY - DAY
  }

  /** Whatever has been purged up to now, the hour and the day about to be rolled up are complete. */
  lemma {:induction false} RollupsSeeEverything(readings: seq<Reading>, purged: nat, now: nat, g: Group)
    requires purged <= now
    ensures var left := Since(readings, purged - 7 * DAY);
            && StatsOf(left, g, HourStart(now), HourStart(now) + HOUR) == StatsOf(readings, g, HourStart(now), HourStart(now) + HOUR)
            && StatsOf(left, g, DayStart(now), DayStart(now) + DAY) == StatsOf(readings, g, DayStart(now), DayStart(now) + DAY)
  {
    PurgeKeepsWindow(readings, purged - 7 * DAY, g, HourStart(now), HourStart(now) + HOUR);
    PurgeKeepsWindow(readings, purged - 7 * DAY, g, DayStart(now), DayStart(now) + DAY);
  }

  // ---- The store -----------------------------------------------------------------------

  /** One aggregate per group that has a reading in the hour. */
  function AggregateReadings(readings: seq<Reading>, start: int): map<Group, Rollup> {
    map g | g in GroupsRead(readings) && HourRow(readings, g, start).Some? :: HourRow(readings, g, start).value
  }

  function GroupsRead(readings: seq<Reading>): set<Group> { set r | r in readings :: r.group }

  function AggregateHourlyRollups(t: Table, start: int): map<Group, Rollup> {
    map g | g in GroupsRolled(t) && DayRow(t, g, start).Some? :: DayRow(t, g, start).value
  }

  function GroupsRolled(t: Table): set<Group> { set k | k in t :: Group(k.source, t[k].sourceType, k.metric) }

  predicate Feeds(g: Group, k: Key) { g.source == k.source && g.metric == k.metric }

  /** The row holds one of the aggregates that feed its key; with several source types any of them. */
  ghost predicate HoldsOneOf(aggs: map<Group, Rollup>, k: Key, before: Option<Rollup>, after: Option<Rollup>) {
    || (after == before && forall g :: g in aggs ==> !Feeds(g, k))
    || exists g :: g in aggs && Feeds(g, k) && after == Some(aggs[g])
  }

  /** The period's rows hold aggregates, all other rows are as before. */
  ghost predicate Upserts(before: Table, after: Table, aggs: map<Group, Rollup>, period: Period, start: int) {
    && (forall k: Key :: k.period != period || k.start != start ==> Find(after, k) == Find(before, k))
    && forall k: Key :: k.period == period && k.start == start ==> HoldsOneOf(aggs, k, Find(before, k), Find(after, k))
  }

  class RollupStore {
    var readings: seq<Reading>
    var rollups: Table

    /** Hourly rows start on the hour, so the 24 slots of a day are all its rows. */
    ghost predicate Valid()
      reads this
    {
      forall k :: k in rollups && k.period == Hour ==> k.start % HOUR == 0
    }

    constructor ()
      ensures Valid() && readings == [] && rollups == map[]
    {
      readings, rollups := [], map[];
    }

    /** The upsert loop both jobs share; the groups come in any order. */
    method UpsertAll(aggs: map<Group, Rollup>, period: Period, start: int)
      modifies this`rollups
      ensures Upserts(old(rollups), rollups, aggs, period, start)
    {
      var todo := aggs.Keys;
      var before := rollups;
      while todo != {}
        invariant todo <= aggs.Keys
        invariant forall k: Key :: k.period != period || k.start != start ==> Find(rollups, k) == Find(before, k)
        invariant forall k: Key :: k.period == period && k.start == start ==>
                    || (Find(rollups, k) == Find(before, k) && forall g :: g in aggs && g !in todo ==> !Feeds(g, k))
                    || exists g :: g in aggs && Feeds(g, k) && Find(rollups, k) == Some(aggs[g])
      {
        var g :| g in todo;
        todo := todo - {g};
        rollups := rollups[Key(g.source, g.metric, period, start) := aggs[g]];
      }
    }

    /** The previous complete hour. */
    method RunHourlyRollup(now: nat)
      requires Valid()
      modifies this`rollups
      ensures Valid()
      ensures HourStart(now) % 3600 == 0 && HourStart(now) + 3600 <= now < HourStart(now) + 2 * 3600
      ensures Upserts(old(rollups), rollups, AggregateReadings(readings, HourStart(now)), Hour, HourStart(now))
    {
      var hourEnd := now - now % HOUR;
      var hourStart := hourEnd - HOUR;
      UpsertAll(AggregateReadings(readings, hourStart), Hour, hourStart);
      forall k | k in rollups && k.period == Hour ensures k.start % HOUR == 0 {
        assert Find(rollups, k).Some?;
        if k.start != hourStart {
          assert Find(rollups, k) == Find(old(rollups), k);
        }
      }
    }

    /** The previous complete day; hourly rows are read, daily rows written. */
    method RunDailyRollup(now: nat)
      requires Valid()
      modifies this`rollups
      ensures Valid()
      ensures DayStart(now) % 86400 == 0 && DayStart(now) + 86400 <= now < DayStart(now) + 2 * 86400
      ensures Upserts(old(rollups), rollups, AggregateHourlyRollups(old(rollups), DayStart(now)), Day, DayStart(now))
    {
      var dayEnd := now - now % DAY;
      var dayStart := dayEnd - DAY;
      UpsertAll(AggregateHourlyRollups(rollups, dayStart), Day, dayStart);
      forall k | k in rollups && k.period == Hour ensures k.start % HOUR == 0 {
        assert Find(rollups, k) == Find(old(rollups), k);
      }
    }

    /** Daily rows are never purged. */
    method RunRetentionPurge(now: nat)
      requires Valid()
      modifies this
      ensures Valid() && readings == ReadingsLeft(old(readings), now) && rollups == RollupsLeft(old(rollups), now)
      ensures forall r :: multiset(readings)[r] == if r.at < now - 7 * 86400 then 0 else multiset(old(readings))[r]
      ensures forall k :: Find(rollups, k) == if k.period == Hour && k.start < now - 90 * 86400 then None
                                              else Find(old(rollups), k)
    {
      ghost var before := readings;
      readings := PurgedReadings(readings, now - 7 * DAY);
      rollups := map k | k in rollups && !(k.period == Hour && k.start < now - 90 * DAY) :: rollups[k];
      forall r {
        SinceCounts(before, now - 7 * DAY, r);
      }
    }

    static method PurgedReadings(readings: seq<Reading>, cutoff: int) returns (left: seq<Reading>)
      ensures left == Since(readings, cutoff)
    {
      left := [];
      for i := 0 to |readings|
        invariant left == Since(readings[..i], cutoff)
      {
        assert readings[..i + 1][..i] == readings[..i];
        if readings[i].at >= cutoff {
          left := left + [readings[i]];
        }
      }
      assert readings[..|readings|] == readings;
    }
  }

  // ---- What the rows end up holding -----------------------------------------------------

  ghost predicate OneType(groups: set<Group>, g: Group) {
    forall other :: other in groups && other.source == g.source && other.metric == g.metric ==> other == g
  }

  lemma NoGroupNoStats(readings: seq<Reading>, g: Group, lo: int, hi: int)
    ensures StatsOf(readings, g, lo, hi).Stats? ==> g in GroupsRead(readings)
  {
    StatsMean(readings, g, lo, hi);
    if StatsOf(readings, g, lo, hi).Stats? {
      var i :| 0 <= i < |readings| && Counts(readings[i], g, lo, hi);
      assert readings[i] in readings;
    }
  }

  /** The query finds the groups with a reading in those 3600 seconds, each with its row. */
  lemma AggregateReadingsIs(readings: seq<Reading>, start: int, g: Group)
    ensures g in AggregateReadings(readings, start) <==>
              exists r :: r in readings && r.group == g && start <= r.at < start + 3600
    ensures g in AggregateReadings(readings, start) ==> HourRow(readings, g, start) == Some(AggregateReadings(readings, start)[g])
  {
    NoGroupNoStats(readings, g, start, start + HOUR);
    var at := HourRowShows(readings, g, start);
    if r :| r in readings && r.group == g && start <= r.at < start + 3600 {
      var i: nat :| i < |readings| && readings[i] == r;
      assert i in at;
    }
    if at != [] {
      assert at[0] in at;
    }
  }

  /** And the one over the hourly rows those with an hourly row in the day's 86400 seconds. */
  lemma AggregateHourlyRollupsIs(t: Table, start: int, g: Group)
    ensures g in AggregateHourlyRollups(t, start) <==>
              exists at :: start <= at < start + 86400 && (at - start) % 3600 == 0
                           && HourKey(g, at) in t && t[HourKey(g, at)].sourceType == g.sourceType
    ensures g in AggregateHourlyRollups(t, start) ==> DayRow(t, g, start) == Some(AggregateHourlyRollups(t, start)[g])
  {
    var starts := DayRowShows(t, g, start);
    DayStatsOfWritten(t, g, start, HOURS);
    if starts != [] {
      assert starts[0] in starts;
    }
  }

  /** With one source type the hourly row is what the readings call for. */
  lemma HourlyRowIs(readings: seq<Reading>, g: Group, start: int, before: Option<Rollup>, after: Option<Rollup>)
    requires OneType(GroupsRead(readings), g)
    requires HoldsOneOf(AggregateReadings(readings, start), Key(g.source, g.metric, Hour, start), before, after)
    requires HourRow(readings, g, start).Some?
    ensures after == HourRow(readings, g, start)
  {
    NoGroupNoStats(readings, g, start, start + HOUR);
    assert g in AggregateReadings(readings, start);
    assert Feeds(g, Key(g.source, g.metric, Hour, start));
  }

  lemma {:induction false} DayStatsOfWritten(t: Table, g: Group, start: int, n: nat)
    ensures DayStats(t, g, start, n).Stats? <==>
            exists h :: 0 <= h < n && HourOf(t, g, start + h * HOUR)
    ensures DayStats(t, g, start, n).Stats? ==> g in GroupsRolled(t) && DayStats(t, g, start, n).count > 0
  {
    if n > 0 {
      DayStatsOfWritten(t, g, start, n - 1);
      if HourOf(t, g, start + (n - 1) * HOUR) {
        var k := Key(g.source, g.metric, Hour, start + (n - 1) * HOUR);
        assert k in t && Group(k.source, t[k].sourceType, k.metric) == g;
      }
    }
  }

  predicate HourOf(t: Table, g: Group, at: int) {
    var row := Find(t, Key(g.source, g.metric, Hour, at)); row.Some? && row.value.sourceType == g.sourceType
  }

  /** The slots miss no hourly row of the day. */
  lemma SlotsCoverTheDay(t: Table, k: Key, start: int, n: nat)
    requires k in t && k.period == Hour && k.start % HOUR == 0 && start % HOUR == 0 && start <= k.start < start + n * HOUR
    ensures DayStats(t, Group(k.source, t[k].sourceType, k.metric), start, n).Stats?
  {
  }

  /** With one source type the daily row is the one of the hourly rows, and a second run writes the same row. */
  lemma DailyRowIs(t: Table, g: Group, start: int, before: Option<Rollup>, after: Option<Rollup>)
    requires OneType(GroupsRolled(t), g)
    requires HoldsOneOf(AggregateHourlyRollups(t, start), Key(g.source, g.metric, Day, start), before, after)
    requires DayRow(t, g, start).Some?
    ensures after == DayRow(t, g, start)
  {
    DayStatsOfWritten(t, g, start, HOURS);
    assert g in AggregateHourlyRollups(t, start);
    assert Feeds(g, Key(g.source, g.metric, Day, start));
  }

  /** Daily rows do not feed back: rewriting them leaves what the next run computes. */
  lemma {:induction false} DailyRunIsIdempotent(t: Table, again: Table, g: Group, start: int, n: nat)
    requires forall k: Key :: k.period == Hour ==> Find(again, k) == Find(t, k)
    ensures DayStats(again, g, start, n) == DayStats(t, g, start, n)
    ensures DayRowOver(again, g, start, n) == DayRowOver(t, g, start, n)
  {
    if n > 0 {
      DailyRunIsIdempotent(t, again, g, start, n - 1);
    }
  }

  // ---- Runs of the jobs -------------------------------------------------------------------

  /** A rollup between its query and its last write: the hour or day, and what the query answered. */
  datatype Job = Job(period: Period, start: int, aggs: map<Group, Rollup>)

  /** `created` remembers every reading ever stored, `jobs` every rollup; runs may overlap. */
  datatype State = State(now: nat, readings: seq<Reading>, created: seq<Reading>, rollups: Table, jobs: map<nat, Job>)

  /** A run writes some groups at a time; one that fails half-way never writes the others. */
  datatype Step =
    | Tick(to: nat)
    | Record(reading: Reading)
    | Query(job: nat, period: Period)
    | Write(job: nat, done: set<Group>)
    | PurgeReadings
    | PurgeHourly

  function Only(aggs: map<Group, Rollup>, done: set<Group>): map<Group, Rollup> {
    map g | g in aggs && g in done :: aggs[g]
  }

  ghost predicate Init(s: State) { s.readings == s.created == [] && s.rollups == map[] && s.jobs == map[] }

  function QueryJob(s: State, period: Period): Job {
    match period
    case Hour => Job(Hour, HourStart(s.now), AggregateReadings(s.readings, HourStart(s.now)))
    case Day => Job(Day, DayStart(s.now), AggregateHourlyRollups(s.rollups, DayStart(s.now)))
  }

  /** A reading carries the time its poll began, so it may be stored later than its time stamp. */
  ghost predicate Next(s: State, step: Step, s': State) {
    match step
    case Tick(to) => s.now <= to && s' == s.(now := to)
    case Record(r) => r.at <= s.now && s' == s.(readings := s.readings + [r], created := s.created + [r])
    case Query(job, period) => job !in s.jobs && s' == s.(jobs := s.jobs[job := QueryJob(s, period)])
    case Write(job, done) =>
      && job in s.jobs && s' == s.(rollups := s'.rollups)
      && Upserts(s.rollups, s'.rollups, Only(s.jobs[job].aggs, done), s.jobs[job].period, s.jobs[job].start)
    case PurgeReadings => s' == s.(readings := ReadingsLeft(s.readings, s.now))
    case PurgeHourly => s' == s.(rollups := RollupsLeft(s.rollups, s.now))
  }

  ghost predicate Run(states: seq<State>, steps: seq<Step>) {
    && |states| == |steps| + 1
    && Init(states[0])
    && forall i :: 0 <= i < |steps| ==> Next(states[i], steps[i], states[i + 1])
  }

  /** Step k writes the row of the hour that starts at `at`, for this group. */
  ghost predicate RollsUp(states: seq<State>, steps: seq<Step>, k: nat, g: Group, at: int)
    requires |states| == |steps| + 1
  {
    && k < |steps| && steps[k].Write? && steps[k].job in states[k].jobs
    && var job := states[k].jobs[steps[k].job];
       job.period == Hour && job.start == at && g in Only(job.aggs, steps[k].done)
  }

  /** The step before i in which the run made its query. */
  function QueryOf(steps: seq<Step>, i: nat, job: nat): (q: nat)
    requires i <= |steps|
    ensures q <= i
  {
    if i == 0 then 0
    else if steps[i - 1].Query? && steps[i - 1].job == job then i - 1
    else QueryOf(steps, i - 1, job)
  }

  lemma {:induction false} QueryIs(states: seq<State>, steps: seq<Step>, i: nat, job: nat)
    requires Run(states, steps) && i < |states| && job in states[i].jobs
    ensures var q := QueryOf(steps, i, job);
            && q < i && steps[q] == Query(job, states[i].jobs[job].period)
            && states[i].jobs[job] == QueryJob(states[q], states[i].jobs[job].period)
  {
    hide Upserts, Since, AggregateReadings, AggregateHourlyRollups, HourStart, DayStart;
    assert i > 0 && Next(states[i - 1], steps[i - 1], states[i]);
    if !(steps[i - 1].Query? && steps[i - 1].job == job) {
      QueryIs(states, steps, i - 1, job);
    }
  }

  /** A query answers for the last hour or day that has ended by then, from what is stored at that moment. */
  lemma QueryAnswers(states: seq<State>, steps: seq<Step>, q: nat)
    requires Run(states, steps) && q < |steps| && steps[q].Query?
    ensures var s, job := states[q], steps[q].job;
            && job in states[q + 1].jobs && job !in s.jobs
            && var j := states[q + 1].jobs[job];
               && j.period == steps[q].period
               && (j.period == Hour ==> && j.start % 3600 == 0 && j.start + 3600 <= s.now < j.start + 2 * 3600
                                        && j.aggs == AggregateReadings(s.readings, j.start))
               && (j.period == Day ==> && j.start % 86400 == 0 && j.start + 86400 <= s.now < j.start + 2 * 86400
                                       && j.aggs == AggregateHourlyRollups(s.rollups, j.start))
  {
    assert Next(states[q], steps[q], states[q + 1]);
  }

  /** The last step before i that writes the row of the hour. */
  ghost function LastRun(states: seq<State>, steps: seq<Step>, i: nat, g: Group, at: int): (k: Option<nat>)
    requires |states| == |steps| + 1 && i < |states|
    ensures k.None? ==> forall j: nat :: j < i ==> !RollsUp(states, steps, j, g, at)
    ensures k.Some? ==> k.value < i && RollsUp(states, steps, k.value, g, at)
    ensures k.Some? ==> forall j: nat :: k.value < j < i ==> !RollsUp(states, steps, j, g, at)
  {
    if i == 0 then None
    else if RollsUp(states, steps, i - 1, g, at) then Some(i - 1)
    else LastRun(states, steps, i - 1, g, at)
  }

  /** What the last run to write an hour's row had seen of the hour. */
  ghost function SeenAt(states: seq<State>, steps: seq<Step>, i: nat, g: Group, at: int): Stats
    requires |states| == |steps| + 1 && i < |states|
  {
    var k := LastRun(states, steps, i, g, at);
    if k.None? then Nothing
    else StatsOf(states[QueryOf(steps, k.value, steps[k.value].job)].created, g, at, at + HOUR)
  }

  ghost function SeenBefore(states: seq<State>, steps: seq<Step>, i: nat, g: Group): int -> Stats
    requires |states| == |steps| + 1 && i < |states|
  {
    (at: int) => SeenAt(states, steps, i, g, at)
  }

  predicate Stores(step: Step, g: Group, at: int) { step.Record? && Counts(step.reading, g, at, at + HOUR) }

  // What every state keeps: seven days of readings, and groups that have been read.

  ghost predicate Kept(s: State) {
    && Whole(s)
    && GroupsRead(s.readings) <= GroupsRead(s.created)
    && GroupsRolled(s.rollups) <= GroupsRead(s.created)
    && forall job :: job in s.jobs ==> KnownGroups(s.jobs[job].aggs, GroupsRead(s.created))
  }

  ghost predicate KnownGroups(aggs: map<Group, Rollup>, known: set<Group>) {
    aggs.Keys <= known && forall g :: g in aggs ==> aggs[g].sourceType == g.sourceType
  }

  lemma OneMoreReading(readings: seq<Reading>, r: Reading, g: Group, lo: int, hi: int)
    ensures StatsOf(readings + [r], g, lo, hi) ==
            if Counts(r, g, lo, hi) then Merge(StatsOf(readings, g, lo, hi), Stats(1, r.value, r.value, r.value))
            else StatsOf(readings, g, lo, hi)
  {
    assert (readings + [r])[..|readings|] == readings;
  }

  lemma GroupsOneMore(readings: seq<Reading>, r: Reading)
    ensures GroupsRead(readings + [r]) == GroupsRead(readings) + {r.group}
  {
    assert forall x :: x in readings + [r] <==> x in readings || x == r;
    assert r in readings + [r];
  }

  lemma {:induction false} SinceIsPart(readings: seq<Reading>, cutoff: int)
    ensures forall r :: r in Since(readings, cutoff) ==> r in readings
    decreases |readings|
  {
    if readings != [] {
      SinceIsPart(readings[..|readings| - 1], cutoff);
    }
  }

  lemma RolledGroupsAreOld(before: Table, after: Table, aggs: map<Group, Rollup>, period: Period, start: int, known: set<Group>)
    requires Upserts(before, after, aggs, period, start) && GroupsRolled(before) <= known && aggs.Keys <= known
    requires forall g :: g in aggs ==> aggs[g].sourceType == g.sourceType
    ensures GroupsRolled(after) <= known
  {
    forall k | k in after ensures Group(k.source, after[k].sourceType, k.metric) in known {
      assert Find(after, k) == Some(after[k]);
      if Find(after, k) == Find(before, k) {
        assert k in before && Group(k.source, before[k].sourceType, k.metric) in GroupsRolled(before);
      } else {
        var g :| g in aggs && Feeds(g, k) && Find(after, k) == Some(aggs[g]);
        assert Group(k.source, after[k].sourceType, k.metric) == g;
      }
    }
  }

  /** Seven days of readings are whole. */
  ghost predicate Whole(s: State) {
    forall g, lo, hi :: lo >= s.now - 7 * DAY ==> StatsOf(s.readings, g, lo, hi) == StatsOf(s.created, g, lo, hi)
  }

  lemma WholeAfterRecord(s: State, r: Reading, s': State)
    requires Whole(s) && Next(s, Record(r), s')
    ensures Whole(s')
  {
    forall g, lo: int, hi: int | lo >= s'.now - 7 * DAY
      ensures StatsOf(s'.readings, g, lo, hi) == StatsOf(s'.created, g, lo, hi)
    {
      OneMoreReading(s.readings, r, g, lo, hi);
      OneMoreReading(s.created, r, g, lo, hi);
    }
  }

  lemma WholeAfterPurge(s: State, s': State)
    requires Whole(s) && Next(s, PurgeReadings, s')
    ensures Whole(s')
  {
    forall g, lo: int, hi: int | lo >= s'.now - 7 * DAY
      ensures StatsOf(s'.readings, g, lo, hi) == StatsOf(s'.created, g, lo, hi)
    {
      PurgeKeepsWindow(s.readings, s.now - 7 * DAY, g, lo, hi);
    }
  }

  lemma KeptStep(s: State, step: Step, s': State)
    requires Kept(s) && Next(s, step, s')
    ensures Kept(s')
  {
    hide StatsOf;
    match step
    case Tick(_) =>
    case Record(r) =>
      WholeAfterRecord(s, r, s');
      GroupsOneMore(s.readings, r);
      GroupsOneMore(s.created, r);
    case Query(_, _) =>
    case Write(job, done) =>
      var j := s.jobs[job];
      assert KnownGroups(j.aggs, GroupsRead(s.created));
      RolledGroupsAreOld(s.rollups, s'.rollups, Only(j.aggs, done), j.period, j.start, GroupsRead(s.created));
    case PurgeReadings =>
      WholeAfterPurge(s, s');
      SinceIsPart(s.readings, s.now - 7 * DAY);
    case PurgeHourly =>
  }

  lemma {:induction false} KeptHolds(states: seq<State>, steps: seq<Step>, i: nat)
    requires Run(states, steps) && i < |states|
    ensures Kept(states[i])
  {
    if i > 0 {
      KeptHolds(states, steps, i - 1);
      KeptStep(states[i - 1], steps[i - 1], states[i]);
    }
  }

  /** What a write does to the row of a group that alone feeds its key. */
  lemma OneWriter(before: Table, after: Table, aggs: map<Group, Rollup>, period: Period, start: int, g: Group, known: set<Group>)
    requires Upserts(before, after, aggs, period, start) && aggs.Keys <= known && OneType(known, g)
    ensures var k := Key(g.source, g.metric, period, start);
            Find(after, k) == if g in aggs then Some(aggs[g]) else Find(before, k)
  {
    var k := Key(g.source, g.metric, period, start);
    assert Feeds(g, k);
    assert HoldsOneOf(aggs, k, Find(before, k), Find(after, k));
  }

  ghost predicate NoneStored(steps: seq<Step>, k: nat, i: nat, g: Group, at: int)
    requires k <= i <= |steps|
  {
    forall j :: k <= j < i ==> !Stores(steps[j], g, at)
  }

  /** The readings of an hour grow, and are the same at two points of a run exactly if none of them was stored in between. */
  lemma {:induction false} ReadingsGrow(states: seq<State>, steps: seq<Step>, k: nat, i: nat, g: Group, at: int)
    requires Run(states, steps) && k <= i < |states|
    ensures var before, after := StatsOf(states[k].created, g, at, at + HOUR), StatsOf(states[i].created, g, at, at + HOUR);
            PartOf(before, after) && (before == after <==> NoneStored(steps, k, i, g, at))
    decreases i
  {
    hide StatsOf, Next, Stores, Within;
    SumWithin(states[i].created, g, at, at + HOUR);
    if k < i {
      ReadingsGrow(states, steps, k, i - 1, g, at);
      StoresOne(states[i - 1], steps[i - 1], states[i], g, at);
      assert NoneStored(steps, k, i, g, at) <==> NoneStored(steps, k, i - 1, g, at) && !Stores(steps[i - 1], g, at);
    }
  }

  lemma StoresOne(s: State, step: Step, s': State, g: Group, at: int)
    requires Next(s, step, s')
    ensures var before, after := StatsOf(s.created, g, at, at + HOUR), StatsOf(s'.created, g, at, at + HOUR);
            if Stores(step, g, at) then Size(after) == Size(before) + 1 else after == before
  {
    if step.Record? {
      OneMoreReading(s.created, step.reading, g, at, at + HOUR);
    }
  }

  lemma CreatedGrows(s: State, step: Step, s': State)
    requires Next(s, step, s')
    ensures GroupsRead(s.created) <= GroupsRead(s'.created) && s.now <= s'.now
  {
    if step.Record? {
      GroupsOneMore(s.created, step.reading);
    }
  }

  lemma {:induction false} GroupsGrow(states: seq<State>, steps: seq<Step>, k: nat, i: nat)
    requires Run(states, steps) && k <= i < |states|
    ensures GroupsRead(states[k].created) <= GroupsRead(states[i].created)
    decreases i
  {
    hide Next, GroupsRead;
    if k < i {
      GroupsGrow(states, steps, k, i - 1);
      CreatedGrows(states[i - 1], steps[i - 1], states[i]);
    }
  }

  /** What a run's write leaves in the row: the one of the readings its query saw. */
  lemma RowAfterRun(states: seq<State>, steps: seq<Step>, i: nat, g: Group, at: int)
    requires Run(states, steps) && i < |steps| && RollsUp(states, steps, i, g, at)
    requires OneType(GroupsRead(states[i].created), g)
    ensures RowShows(states[i + 1].rollups, g,
                     StatsOf(states[QueryOf(steps, i, steps[i].job)].created, g, at, at + HOUR), at)
  {
    var job, done := steps[i].job, steps[i].done;
    assert Next(states[i], steps[i], states[i + 1]);
    QueryIs(states, steps, i, job);
    var q := QueryOf(steps, i, job);
    GroupsGrow(states, steps, q, i);
    KeptHolds(states, steps, q);
    var s := states[q];
    OneWriter(states[i].rollups, states[i + 1].rollups, Only(states[i].jobs[job].aggs, done), Hour, at, g,
              GroupsRead(states[i].created));
    assert StatsOf(s.readings, g, at, at + HOUR) == StatsOf(s.created, g, at, at + HOUR);
    SumWithin(s.created, g, at, at + HOUR);
  }

  /** No other step touches it, short of the purge after 90 days. */
  lemma RowOtherwise(states: seq<State>, steps: seq<Step>, i: nat, g: Group, at: int)
    requires Run(states, steps) && i < |steps| && !RollsUp(states, steps, i, g, at)
    requires OneType(GroupsRead(states[i].created), g) && at >= states[i].now - 90 * DAY
    ensures Find(states[i + 1].rollups, HourKey(g, at)) == Find(states[i].rollups, HourKey(g, at))
  {
    var s, s' := states[i], states[i + 1];
    assert Next(s, steps[i], s');
    if steps[i].Write? {
      var job := s.jobs[steps[i].job];
      if job.period == Hour && job.start == at {
        KeptHolds(states, steps, i);
        assert KnownGroups(job.aggs, GroupsRead(s.created));
        OneWriter(s.rollups, s'.rollups, Only(job.aggs, steps[i].done), Hour, at, g, GroupsRead(s.created));
      }
    }
  }

  lemma NoRowShowsNothing(g: Group, at: int)
    ensures RowShows(map[], g, Nothing, at)
  {
  }

  /** In every run the row of a recent hour is the one of the readings that the last run to write it saw, and there is none without such a run. */
  lemma {:induction false} HourRowOfRun(states: seq<State>, steps: seq<Step>, i: nat, g: Group, at: int)
    requires Run(states, steps) && i < |states|
    requires OneType(GroupsRead(states[i].created), g) && at >= states[i].now - 90 * DAY
    ensures RowShows(states[i].rollups, g, SeenAt(states, steps, i, g, at), at)
  {
    hide MeanRow, StatsOf, Within, Upserts, Since, AggregateReadings, AggregateHourlyRollups, Only;
    if i == 0 {
      NoRowShowsNothing(g, at);
    } else {
      assert Next(states[i - 1], steps[i - 1], states[i]);
      CreatedGrows(states[i - 1], steps[i - 1], states[i]);
      HourRowOfRun(states, steps, i - 1, g, at);
      if RollsUp(states, steps, i - 1, g, at) {
        RowAfterRun(states, steps, i - 1, g, at);
      } else {
        RowOtherwise(states, steps, i - 1, g, at);
      }
    }
  }

  predicate HourHasReadings(readings: seq<Reading>, g: Group, at: int) { StatsOf(readings, g, at, at + HOUR).Stats? }

  /** The hours as a query at i sees them, against the readings up to a later point m. */
  ghost predicate HourComplete(states: seq<State>, steps: seq<Step>, i: nat, m: nat, g: Group, at: int)
    requires |states| == |steps| + 1 && i <= m < |states|
  {
    var k := LastRun(states, steps, i, g, at);
    HourHasReadings(states[m].created, g, at) ==>
      k.Some? && NoneStored(steps, QueryOf(steps, k.value, steps[k.value].job), m, g, at)
  }

  ghost predicate HoursComplete(states: seq<State>, steps: seq<Step>, i: nat, m: nat, g: Group, start: int, n: nat)
    requires |states| == |steps| + 1 && i <= m < |states|
  {
    n == 0 || (HoursComplete(states, steps, i, m, g, start, n - 1) && HourComplete(states, steps, i, m, g, start + (n - 1) * HOUR))
  }

  /** What the last run before i saw of an hour is all of it exactly if the hour is complete. */
  lemma HourIsAllIff(states: seq<State>, steps: seq<Step>, i: nat, m: nat, g: Group, at: int)
    requires Run(states, steps) && i <= m < |states|
    ensures var all := StatsOf(states[m].created, g, at, at + HOUR);
            PartOf(SeenAt(states, steps, i, g, at), all)
            && (SeenAt(states, steps, i, g, at) == all <==> HourComplete(states, steps, i, m, g, at))
  {
    SumWithin(states[m].created, g, at, at + HOUR);
    var k := LastRun(states, steps, i, g, at);
    if k.Some? {
      ReadingsGrow(states, steps, QueryOf(steps, k.value, steps[k.value].job), m, g, at);
    }
  }

  /**
   * In every run the rows of a recent window are those of what the last runs to write them
   * saw. Up to any later point that is all its readings exactly when every hour with readings
   * had such a run in the following hour and none of its readings was stored after the query
   * of the last one.
   */
  lemma {:induction false} HoursRolledIff(states: seq<State>, steps: seq<Step>, i: nat, m: nat, g: Group, start: int, n: nat)
    requires Run(states, steps) && i <= m < |states|
    requires OneType(GroupsRead(states[i].created), g) && start >= states[i].now - 90 * DAY
    ensures var seen, created := SeenBefore(states, steps, i, g), states[m].created;
            && RowsShow(states[i].rollups, g, seen, start, n) && SeesParts(seen, created, g, start, n)
            && (Together(seen, start, n) == StatsOf(created, g, start, start + n * HOUR)
                <==> HoursComplete(states, steps, i, m, g, start, n))
  {
    HoursSeen(states, steps, i, m, g, start, n);
    SeenIsAllIff(SeenBefore(states, steps, i, g), states[m].created, g, start, n);
  }

  lemma {:induction false} HoursSeen(states: seq<State>, steps: seq<Step>, i: nat, m: nat, g: Group, start: int, n: nat)
    requires Run(states, steps) && i <= m < |states|
    requires OneType(GroupsRead(states[i].created), g) && start >= states[i].now - 90 * DAY
    ensures var seen, created := SeenBefore(states, steps, i, g), states[m].created;
            && RowsShow(states[i].rollups, g, seen, start, n) && SeesParts(seen, created, g, start, n)
            && (SeesAll(seen, created, g, start, n) <==> HoursComplete(states, steps, i, m, g, start, n))
  {
    hide MeanRow, StatsOf, Within, PartOf, Run, LastRun, HourComplete;
    if n > 0 {
      HoursSeen(states, steps, i, m, g, start, n - 1);
      var at := start + (n - 1) * HOUR;
      HourRowOfRun(states, steps, i, g, at);
      HourIsAllIff(states, steps, i, m, g, at);
    }
  }

  /** Step i writes the day's row of this group for a daily run. */
  ghost predicate DailyWrites(states: seq<State>, steps: seq<Step>, i: nat, g: Group)
    requires |states| == |steps| + 1
  {
    && i < |steps| && steps[i].Write? && steps[i].job in states[i].jobs
    && states[i].jobs[steps[i].job].period == Day && g in steps[i].done
  }

  /**
   * The daily job over every run: the row it writes has the true extremes of the readings
   * that the last hourly runs before its query saw and a mean between them; and these are all
   * readings of the day stored by now exactly when every hour with readings had an hourly
   * run before that query and none of its readings was stored after the query of the last one.
   */
  lemma {:induction false} DailyRunWrites(states: seq<State>, steps: seq<Step>, i: nat, g: Group)
    requires Run(states, steps) && DailyWrites(states, steps, i, g)
    requires OneType(GroupsRead(states[i].created), g)
    ensures var q := QueryOf(steps, i, steps[i].job);
            q < i && steps[q] == Query(steps[i].job, Day)
            && var start, created := DayStart(states[q].now), states[i].created;
               var k, seen := Key(g.source, g.metric, Day, start), Together(SeenBefore(states, steps, q, g), start, HOURS);
               var row := Find(states[i + 1].rollups, k);
               && (seen.Stats? ==> row.Some? && row.value.min == seen.least && row.value.max == seen.greatest
                                   && row.value.min <= row.value.avg <= row.value.max)
               && (seen.Nothing? ==> row == Find(states[i].rollups, k))
               && (seen == StatsOf(created, g, start, start + DAY) <==> HoursComplete(states, steps, q, i, g, start, HOURS))
  {
    hide Next, DayStart, QueryJob;
    QueryIs(states, steps, i, steps[i].job);
    var q := QueryOf(steps, i, steps[i].job);
    GroupsGrow(states, steps, q, i);
    DayStartIsRecent(states[q].now);
    var start := DayStart(states[q].now);
    HoursRolledIff(states, steps, q, i, g, start, HOURS);
    DailyRowOver(states[q].rollups, g, SeenBefore(states, steps, q, g), start, HOURS, 0);
    DailyRowWritten(states, steps, i, g);
  }

  lemma DayStartIsRecent(now: nat)
    ensures now - 2 * DAY <= DayStart(now) && DayStart(now) + DAY <= now
  {
  }

  lemma DailyRowWritten(states: seq<State>, steps: seq<Step>, i: nat, g: Group)
    requires Run(states, steps) && DailyWrites(states, steps, i, g)
    requires OneType(GroupsRead(states[i].created), g)
    ensures var q := QueryOf(steps, i, steps[i].job);
            q < i && var start := DayStart(states[q].now);
            var k, row := Key(g.source, g.metric, Day, start), DayRow(states[q].rollups, g, start);
            Find(states[i + 1].rollups, k) == if row.Some? then row else Find(states[i].rollups, k)
  {
    var s, job := states[i], states[i].jobs[steps[i].job];
    assert Next(s, steps[i], states[i + 1]);
    QueryIs(states, steps, i, steps[i].job);
    var q := QueryOf(steps, i, steps[i].job);
    KeptHolds(states, steps, i);
    assert KnownGroups(job.aggs, GroupsRead(s.created));
    OneWriter(s.rollups, states[i + 1].rollups, Only(job.aggs, steps[i].done), Day, job.start, g, GroupsRead(s.created));
    DayStatsOfWritten(states[q].rollups, g, job.start, HOURS);
  }

  /** A daily query with no hourly query since the day's end misses every reading of the last hour. */
  lemma LastHourNeedsALateRun(states: seq<State>, steps: seq<Step>, i: nat, m: nat, g: Group)
    requires Run(states, steps) && i <= m < |states|
    requires forall q :: 0 <= q < i && steps[q].Query? && steps[q].period == Hour ==> states[q].now < DayStart(states[i].now) + DAY
    ensures HourComplete(states, steps, i, m, g, DayStart(states[i].now) + DAY - HOUR) <==>
            !HourHasReadings(states[m].created, g, DayStart(states[i].now) + DAY - HOUR)
  {
    var at := DayStart(states[i].now) + DAY - HOUR;
    forall k: nat | k < i ensures !RollsUp(states, steps, k, g, at) {
      if steps[k].Write? && steps[k].job in states[k].jobs {
        QueryIs(states, steps, k, steps[k].job);
      }
    }
  }

  /** The job that fires at midnight sharp: a reading of the last second has no row to show for it. */
  lemma MidnightRunMissesLastHour(g: Group, v: real, day: nat) returns (states: seq<State>, steps: seq<Step>)
    requires day > 0
    ensures Run(states, steps) && |steps| == 5 && steps[3..] == [Query(0, Day), Write(0, {g})] && states[3].now == day * DAY
    ensures StatsOf(states[5].created, g, DayStart(day * DAY), day * DAY) == Stats(1, v, v, v)
    ensures states[5].rollups == map[]
  {
    var midnight := day * DAY;
    var r := Reading(g, v, midnight - 1);
    var s0 := State(0, [], [], map[], map[]);
    var s1 := s0.(now := midnight - 1);
    var s2 := s1.(readings := [r], created := [r]);
    var s3 := s2.(now := midnight);
    var s4 := s3.(jobs := map[][0 := Job(Day, midnight - DAY, map[])]);
    states, steps := [s0, s1, s2, s3, s4, s4],
                     [Tick(midnight - 1), Record(r), Tick(midnight), Query(0, Day), Write(0, {g})];
    OneMoreReading([], r, g, midnight - DAY, midnight);
    assert [] + [r] == [r];
    assert Next(s3, Query(0, Day), s4) by {
      assert GroupsRolled(map[]) == {};
      assert AggregateHourlyRollups(map[], midnight - DAY) == map[];
    }
    assert Next(s4, Write(0, {g}), s4) by {
      assert Only(map[], {g}) == map[];
    }
    assert forall i :: 0 <= i < |steps| ==> Next(states[i], steps[i], states[i + 1]);
  }

  /** A reading stored after the query of the run that rolls up its hour is missed unless another run of that hour follows. */
  lemma LateReadingIsMissed(g: Group, v: real, hour: nat) returns (states: seq<State>, steps: seq<Step>)
    ensures Run(states, steps) && |steps| == 4 && steps[1] == Query(0, Hour) && HourStart(states[1].now) == hour * HOUR
    ensures steps[2].Record? && steps[3] == Write(0, {g})
    ensures HourRow(states[4].created, g, hour * HOUR).Some? && states[4].rollups == map[]
  {
    var at := hour * HOUR;
    var r := Reading(g, v, at);
    var s0 := State(0, [], [], map[], map[]);
    var s1 := s0.(now := at + HOUR);
    var s2 := s1.(jobs := map[][0 := Job(Hour, at, map[])]);
    var s3 := s2.(readings := [r], created := [r]);
    states, steps := [s0, s1, s2, s3, s3], [Tick(at + HOUR), Query(0, Hour), Record(r), Write(0, {g})];
    OneMoreReading([], r, g, at, at + HOUR);
    assert [] + [r] == [r];
    assert Next(s1, Query(0, Hour), s2) by {
      assert GroupsRead([]) == {};
      assert AggregateReadings([], at) == map[];
    }
    assert Next(s3, Write(0, {g}), s3) by {
      assert Only(map[], {g}) == map[];
    }
    assert forall i :: 0 <= i < |steps| ==> Next(states[i], steps[i], states[i + 1]);
  }
}
