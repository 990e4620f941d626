/**
 * The analytics page's aggregation of the usage report: message totals per status, the per-day chart
 * rows, total API requests, and the five busiest endpoints. Response times are not modelled.
 */
module Analytics {
  import opened Common

  /** One row of the report's message statistics: the count of messages with a status on a date. */
  datatype MessageStat = MessageStat(date: string, status: string, count: nat)

  /** One row of the report's API statistics: the count of requests to an endpoint on a date. */
  datatype ApiStat = ApiStat(date: string, endpoint: string, count: nat)

  /** A chart row: a date and, per status, the count recorded for it. */
  datatype DayEntry = DayEntry(date: string, counts: map<string, nat>)

  datatype EndpointCount = EndpointCount(endpoint: string, count: nat)

  datatype MessageSummary = MessageSummary(sent: nat, failed: nat, total: nat, dailyData: seq<DayEntry>)

  // ---------------------------------------------------------------------------------------------
  // Distinct keys in order of first appearance

  /** The keys of `xs` without repeats, each where it first appears. */
  function Distinct(xs: seq<string>): seq<string> {
    if xs == [] then []
    else
      var p := Distinct(xs[..|xs| - 1]);
      if xs[|xs| - 1] in p then p else p + [xs[|xs| - 1]]
  }

  predicate NoDuplicates(xs: seq<string>) {
    forall i, j :: 0 <= i < j < |xs| ==> xs[i] != xs[j]
  }

  /** The position where `x` first occurs in `xs`. */
  function FirstIndex(xs: seq<string>, x: string): (k: nat)
    requires x in xs
    ensures k < |xs| && xs[k] == x
    ensures forall j :: 0 <= j < k ==> xs[j] != x
  {
    if xs[0] == x then 0 else 1 + FirstIndex(xs[1..], x)
  }

  lemma FirstIndexOfPrefix(xs: seq<string>, n: nat, x: string)
    requires n <= |xs| && x in xs[..n]
    ensures FirstIndex(xs[..n], x) == FirstIndex(xs, x)
  {
    var k := FirstIndex(xs[..n], x);
    var k' := FirstIndex(xs, x);
    assert xs[k] == x;
    assert k' <= k;
    assert xs[..n][k'] == x;
  }

  /** Distinct keeps each key once, keeps exactly the keys of its input, and orders them by first occurrence. */
  lemma {:induction false} DistinctProperties(xs: seq<string>)
    ensures NoDuplicates(Distinct(xs))
    ensures forall x :: x in Distinct(xs) <==> x in xs
    ensures forall i, j :: 0 <= i < j < |Distinct(xs)| ==>
      FirstIndex(xs, Distinct(xs)[i]) < FirstIndex(xs, Distinct(xs)[j])
  {
    if xs != [] {
      var init, last := xs[..|xs| - 1], xs[|xs| - 1];
      DistinctProperties(init);
      assert xs == init + [last];
      var d := Distinct(xs);
      forall x | x in init
        ensures FirstIndex(xs, x) == FirstIndex(init, x)
      {
        FirstIndexOfPrefix(xs, |xs| - 1, x);
      }
      if last !in Distinct(init) {
        assert last !in init;
        assert FirstIndex(xs, last) == |xs| - 1;
        forall i | 0 <= i < |d| - 1
          ensures FirstIndex(xs, d[i]) < FirstIndex(xs, last)
        {
          assert d[i] in init;
        }
      }
    }
  }

  /** The two facts about `Distinct` most proofs need: no repeats, and exactly the input's keys. */
  lemma DistinctKeys(xs: seq<string>)
    ensures NoDuplicates(Distinct(xs))
    ensures forall x :: x in Distinct(xs) <==> x in xs
  {
    DistinctProperties(xs);
  }

  /**
   * The position of the first element whose key is `key`, or `|xs|` when there is none: the lookup of
   * `acc.find(day => day.date === date)` for the chart rows and of `acc[endpoint]` for the endpoint entries.
   */
  method FindFirst<T>(xs: seq<T>, keyOf: T -> string, key: string) returns (k: nat)
    ensures k <= |xs|
    ensures k < |xs| ==> keyOf(xs[k]) == key
    ensures forall j :: 0 <= j < k ==> keyOf(xs[j]) != key
  {
    k := 0;
    while k < |xs| && keyOf(xs[k]) != key
      invariant k <= |xs|
      invariant forall j :: 0 <= j < k ==> keyOf(xs[j]) != key
    {
      k := k + 1;
    }
  }

  // ---------------------------------------------------------------------------------------------
  // Message statistics

  function Dates(stats: seq<MessageStat>): (r: seq<string>)
    ensures |r| == |stats| && forall i :: 0 <= i < |stats| ==> r[i] == stats[i].date
  {
    seq(|stats|, i requires 0 <= i < |stats| => stats[i].date)
  }

  /** `stats.filter(s => s.status === status).reduce((sum, s) => sum + s.count, 0)`. */
  function StatusTotal(stats: seq<MessageStat>, status: string): (total: nat)
    ensures forall i :: 0 <= i < |stats| && stats[i].status == status ==> stats[i].count <= total
    ensures total <= AllMessages(stats)
  {
    if stats == [] then 0
    else StatusTotal(stats[..|stats| - 1], status) + (if stats[|stats| - 1].status == status then stats[|stats| - 1].count else 0)
  }

  /** Sum of every count, whatever its status. */
  function AllMessages(stats: seq<MessageStat>): nat {
    if stats == [] then 0 else AllMessages(stats[..|stats| - 1]) + stats[|stats| - 1].count
  }

  /** Sent and failed never add up to more than all counts, and they are disjoint parts of it. */
  lemma {:induction false} SentFailedBounded(stats: seq<MessageStat>)
    ensures StatusTotal(stats, "sent") + StatusTotal(stats, "failed") <= AllMessages(stats)
  {
    if stats != [] {
      SentFailedBounded(stats[..|stats| - 1]);
    }
  }

  /** A stat with any status other than sent or failed contributes to neither total. */
  lemma OtherStatusIgnored(stats: seq<MessageStat>, extra: MessageStat)
    requires extra.status != "sent" && extra.status != "failed"
    ensures StatusTotal(stats + [extra], "sent") == StatusTotal(stats, "sent")
    ensures StatusTotal(stats + [extra], "failed") == StatusTotal(stats, "failed")
  {
    assert (stats + [extra])[..|stats|] == stats;
  }

  /** The count the chart row for `date` shows for `status`: the last stat with that date and status wins. */
  function LastCount(stats: seq<MessageStat>, date: string, status: string): Option<nat> {
    if stats == [] then None
    else
      var s := stats[|stats| - 1];
      if s.date == date && s.status == status then Some(s.count)
      else LastCount(stats[..|stats| - 1], date, status)
  }

  /** A repeated (date, status) pair replaces the earlier count rather than adding to it. */
  lemma RepeatedPairOverwrites(stats: seq<MessageStat>, a: MessageStat, b: MessageStat)
    requires a.date == b.date && a.status == b.status
    ensures LastCount(stats + [a, b], a.date, a.status) == Some(b.count)
  {
  }

  /** A chart row matches the statistics when it holds, per status, exactly the last count for its date. */
  ghost predicate DayMatches(stats: seq<MessageStat>, day: DayEntry) {
    forall status :: (status in day.counts <==> LastCount(stats, day.date, status).Some?)
      && (status in day.counts ==> day.counts[status] == LastCount(stats, day.date, status).value)
  }

  /** The chart rows match: one per distinct date, in order of first appearance, each with its statuses' last counts. */
  ghost predicate DailyMatches(stats: seq<MessageStat>, days: seq<DayEntry>) {
    && |days| == |Distinct(Dates(stats))|
    && (forall i :: 0 <= i < |days| ==> days[i].date == Distinct(Dates(stats))[i])
    && (forall i :: 0 <= i < |days| ==> DayMatches(stats, days[i]))
  }

  /** The `dailyData` reduction: update the row of a known date in place, or append a row for a new one. */
  method DailyData(stats: seq<MessageStat>) returns (days: seq<DayEntry>)
    ensures DailyMatches(stats, days)
  {
    days := [];
    var n := 0;
    while n < |stats|
      invariant n <= |stats|
      invariant DailyMatches(stats[..n], days)
    {
      var stat := stats[n];
      var k := FindFirst(days, (d: DayEntry) => d.date, stat.date);
      DailyStep(stats, n, days, k);
      if k < |days| {
        days := days[k := days[k].(counts := days[k].counts[stat.status := stat.count])];
      } else {
        days := days + [DayEntry(stat.date, map[stat.status := stat.count])];
      }
      n := n + 1;
    }
    assert stats[..n] == stats;
  }

  /** One step of the reduction keeps the rows matching the statistics read so far. */
  lemma DailyStep(stats: seq<MessageStat>, n: nat, days: seq<DayEntry>, k: nat)
    requires n < |stats| && DailyMatches(stats[..n], days)
    requires k <= |days|
    requires k < |days| ==> days[k].date == stats[n].date
    requires forall j :: 0 <= j < k ==> days[j].date != stats[n].date
    ensures var stat := stats[n];
      DailyMatches(stats[..n + 1],
        if k < |days| then days[k := days[k].(counts := days[k].counts[stat.status := stat.count])]
        else days + [DayEntry(stat.date, map[stat.status := stat.count])])
  {
    var stat := stats[n];
    var pre, post := stats[..n], stats[..n + 1];
    assert post == pre + [stat];
    assert Dates(post) == Dates(pre) + [stat.date];
    assert Dates(post)[..n] == Dates(pre);
    if k < |days| {
      DailyStepKnownDate(pre, stat, days, k);
    } else {
      DailyStepNewDate(pre, stat, days);
    }
  }

  /** Reading one more statistic changes only the count of its own date and status. */
  lemma LastCountStep(pre: seq<MessageStat>, stat: MessageStat, date: string, status: string)
    ensures LastCount(pre + [stat], date, status)
      == if stat.date == date && stat.status == status then Some(stat.count) else LastCount(pre, date, status)
  {
    assert (pre + [stat])[..|pre|] == pre;
  }

  lemma DailyStepKnownDate(pre: seq<MessageStat>, stat: MessageStat, days: seq<DayEntry>, k: nat)
    requires DailyMatches(pre, days)
    requires k < |days| && days[k].date == stat.date
    ensures DailyMatches(pre + [stat], days[k := days[k].(counts := days[k].counts[stat.status := stat.count])])
  {
    var post := pre + [stat];
    assert Dates(post) == Dates(pre) + [stat.date];
    assert Dates(post)[..|pre|] == Dates(pre);
    assert stat.date in Distinct(Dates(pre));
    assert Distinct(Dates(post)) == Distinct(Dates(pre));
    DistinctKeys(Dates(pre));
    var days' := days[k := days[k].(counts := days[k].counts[stat.status := stat.count])];
    forall i | 0 <= i < |days'| ensures DayMatches(post, days'[i]) {
      assert DayMatches(pre, days[i]);
      if i != k {
        assert days[i].date != days[k].date;
      }
      forall status ensures (status in days'[i].counts <==> LastCount(post, days'[i].date, status).Some?)
        && (status in days'[i].counts ==> days'[i].counts[status] == LastCount(post, days'[i].date, status).value)
      {
        LastCountStep(pre, stat, days'[i].date, status);
      }
    }
  }

  lemma DailyStepNewDate(pre: seq<MessageStat>, stat: MessageStat, days: seq<DayEntry>)
    requires DailyMatches(pre, days)
    requires forall j :: 0 <= j < |days| ==> days[j].date != stat.date
    ensures DailyMatches(pre + [stat], days + [DayEntry(stat.date, map[stat.status := stat.count])])
  {
    var post := pre + [stat];
    assert Dates(post) == Dates(pre) + [stat.date];
    assert Dates(post)[..|pre|] == Dates(pre);
    assert stat.date !in Distinct(Dates(pre));
    assert Distinct(Dates(post)) == Distinct(Dates(pre)) + [stat.date];
    var day := DayEntry(stat.date, map[stat.status := stat.count]);
    var days' := days + [day];
    forall i | 0 <= i < |days'| ensures DayMatches(post, days'[i]) {
      if i < |days| {
        assert DayMatches(pre, days[i]);
      } else {
        LastCountAbsent(pre, stat.date, stat.status);
      }
      forall status ensures (status in days'[i].counts <==> LastCount(post, days'[i].date, status).Some?)
        && (status in days'[i].counts ==> days'[i].counts[status] == LastCount(post, days'[i].date, status).value)
      {
        LastCountStep(pre, stat, days'[i].date, status);
        if i == |days| {
          LastCountAbsent(pre, stat.date, status);
        }
      }
    }
  }

  /** A date that no statistic carries has no count. */
  lemma {:induction false} LastCountAbsent(stats: seq<MessageStat>, date: string, status: string)
    requires date !in Distinct(Dates(stats))
    ensures LastCount(stats, date, status).None?
  {
    DistinctKeys(Dates(stats));
    if stats != [] {
      var init := stats[..|stats| - 1];
      assert Dates(init) == Dates(stats)[..|stats| - 1];
      DistinctKeys(Dates(init));
      assert date != stats[|stats| - 1].date;
      LastCountAbsent(init, date, status);
    }
  }

  /** `processMessageStats`: the totals and the chart rows; a report without message statistics gives zeros. */
  method ProcessMessageStats(data: Option<seq<MessageStat>>) returns (summary: MessageSummary)
    ensures data.None? ==> summary == MessageSummary(0, 0, 0, [])
    ensures data.Some? ==> summary.sent == StatusTotal(data.value, "sent")
    ensures data.Some? ==> summary.failed == StatusTotal(data.value, "failed")
    ensures summary.total == summary.sent + summary.failed
    ensures data.Some? ==> DailyMatches(data.value, summary.dailyData)
  {
    if data.None? {
      return MessageSummary(0, 0, 0, []);
    }
    var stats := data.value;
    var sent := StatusTotal(stats, "sent");
    var failed := StatusTotal(stats, "failed");
    var days := DailyData(stats);
    summary := MessageSummary(sent, failed, sent + failed, days);
  }

  // ---------------------------------------------------------------------------------------------
  // API statistics

  /** `apiStats.reduce((sum, s) => sum + s.count, 0)`. */
  function TotalRequests(stats: seq<ApiStat>): (total: nat)
    ensures forall i :: 0 <= i < |stats| ==> stats[i].count <= total
    ensures total == 0 <==> forall i :: 0 <= i < |stats| ==> stats[i].count == 0
  {
    if stats == [] then 0 else TotalRequests(stats[..|stats| - 1]) + stats[|stats| - 1].count
  }

  function Endpoints(stats: seq<ApiStat>): (r: seq<string>)
    ensures |r| == |stats| && forall i :: 0 <= i < |stats| ==> r[i] == stats[i].endpoint
  {
    seq(|stats|, i requires 0 <= i < |stats| => stats[i].endpoint)
  }

  /** The summed count of one endpoint. */
  function EndpointTotal(stats: seq<ApiStat>, endpoint: string): nat {
    if stats == [] then 0
    else
      var last := stats[|stats| - 1];
      EndpointTotal(stats[..|stats| - 1], endpoint) + (if last.endpoint == endpoint then last.count else 0)
  }

  function SumCounts(groups: seq<EndpointCount>): nat {
    if groups == [] then 0 else SumCounts(groups[..|groups| - 1]) + groups[|groups| - 1].count
  }

  function EndpointNames(groups: seq<EndpointCount>): (r: seq<string>)
    ensures |r| == |groups| && forall i :: 0 <= i < |groups| ==> r[i] == groups[i].endpoint
  {
    seq(|groups|, i requires 0 <= i < |groups| => groups[i].endpoint)
  }

  lemma {:induction false} SumCountsUpdate(groups: seq<EndpointCount>, k: nat, extra: nat)
    requires k < |groups|
    ensures SumCounts(groups[k := groups[k].(count := groups[k].count + extra)]) == SumCounts(groups) + extra
  {
    var g' := groups[k := groups[k].(count := groups[k].count + extra)];
    if k < |groups| - 1 {
      assert g'[..|g'| - 1] == groups[..|groups| - 1][k := groups[k].(count := groups[k].count + extra)];
      SumCountsUpdate(groups[..|groups| - 1], k, extra);
    } else {
      assert g'[..|g'| - 1] == groups[..|groups| - 1];
    }
  }

  lemma SumCountsAppend(groups: seq<EndpointCount>, g: EndpointCount)
    ensures SumCounts(groups + [g]) == SumCounts(groups) + g.count
  {
    assert (groups + [g])[..|groups|] == groups;
  }

  /** The grouping matches the statistics: one entry per distinct endpoint, in order of first appearance, with its summed count. */
  ghost predicate GroupsMatch(stats: seq<ApiStat>, groups: seq<EndpointCount>) {
    && EndpointNames(groups) == Distinct(Endpoints(stats))
    && (forall i :: 0 <= i < |groups| ==> groups[i].count == EndpointTotal(stats, groups[i].endpoint))
    && SumCounts(groups) == TotalRequests(stats)
  }

  /** The `endpointStats` reduction: add each count to its endpoint's entry, creating the entry on first sight. */
  method GroupByEndpoint(stats: seq<ApiStat>) returns (groups: seq<EndpointCount>)
    ensures GroupsMatch(stats, groups)
  {
    groups := [];
    var n := 0;
    while n < |stats|
      invariant n <= |stats|
      invariant GroupsMatch(stats[..n], groups)
    {
      var stat := stats[n];
      var k := FindFirst(groups, (g: EndpointCount) => g.endpoint, stat.endpoint);
      GroupStep(stats, n, groups, k);
      if k < |groups| {
        groups := groups[k := groups[k].(count := groups[k].count + stat.count)];
      } else {
        groups := groups + [EndpointCount(stat.endpoint, stat.count)];
      }
      n := n + 1;
    }
    assert stats[..n] == stats;
  }

  /** One step of the reduction keeps the grouping matching the statistics read so far. */
  lemma GroupStep(stats: seq<ApiStat>, n: nat, groups: seq<EndpointCount>, k: nat)
    requires n < |stats| && GroupsMatch(stats[..n], groups)
    requires k <= |groups|
    requires k < |groups| ==> groups[k].endpoint == stats[n].endpoint
    requires forall j :: 0 <= j < k ==> groups[j].endpoint != stats[n].endpoint
    ensures var stat := stats[n];
      GroupsMatch(stats[..n + 1],
        if k < |groups| then groups[k := groups[k].(count := groups[k].count + stat.count)]
        else groups + [EndpointCount(stat.endpoint, stat.count)])
  {
    assert stats[..n + 1] == stats[..n] + [stats[n]];
    if k < |groups| {
      GroupStepKnownEndpoint(stats[..n], stats[n], groups, k);
    } else {
      GroupStepNewEndpoint(stats[..n], stats[n], groups);
    }
  }

  /** Reading one more statistic adds its count to its own endpoint only. */
  lemma EndpointTotalStep(pre: seq<ApiStat>, stat: ApiStat, endpoint: string)
    ensures EndpointTotal(pre + [stat], endpoint)
      == EndpointTotal(pre, endpoint) + (if stat.endpoint == endpoint then stat.count else 0)
  {
    assert (pre + [stat])[..|pre|] == pre;
  }

  /** Appending a key to a sequence appends it to the distinct keys unless it was already there. */
  lemma DistinctSnoc(xs: seq<string>, x: string)
    ensures Distinct(xs + [x]) == if x in Distinct(xs) then Distinct(xs) else Distinct(xs) + [x]
  {
    assert (xs + [x])[..|xs|] == xs;
  }

  lemma EndpointsSnoc(pre: seq<ApiStat>, stat: ApiStat)
    ensures Endpoints(pre + [stat]) == Endpoints(pre) + [stat.endpoint]
    ensures TotalRequests(pre + [stat]) == TotalRequests(pre) + stat.count
  {
    assert (pre + [stat])[..|pre|] == pre;
  }

  /** Adding a statistic's count to its own endpoint's entry keeps every entry's count its endpoint's total. */
  lemma KnownEndpointCounts(pre: seq<ApiStat>, stat: ApiStat, groups: seq<EndpointCount>, k: nat)
    requires k < |groups| && groups[k].endpoint == stat.endpoint
    requires EndpointNames(groups) == Distinct(Endpoints(pre))
    requires forall i :: 0 <= i < |groups| ==> groups[i].count == EndpointTotal(pre, groups[i].endpoint)
    ensures var g' := groups[k := groups[k].(count := groups[k].count + stat.count)];
      forall i :: 0 <= i < |g'| ==> g'[i].count == EndpointTotal(pre + [stat], g'[i].endpoint)
  {
    DistinctKeys(Endpoints(pre));
    var g' := groups[k := groups[k].(count := groups[k].count + stat.count)];
    forall i | 0 <= i < |g'| ensures g'[i].count == EndpointTotal(pre + [stat], g'[i].endpoint) {
      EndpointTotalStep(pre, stat, g'[i].endpoint);
      if i != k {
        assert EndpointNames(groups)[i] != EndpointNames(groups)[k];
      }
    }
  }

  /** Adding to a known endpoint's entry keeps the list of names the distinct endpoints read so far. */
  lemma KnownEndpointNames(pre: seq<ApiStat>, stat: ApiStat, groups: seq<EndpointCount>, k: nat)
    requires EndpointNames(groups) == Distinct(Endpoints(pre))
    requires k < |groups| && groups[k].endpoint == stat.endpoint
    ensures EndpointNames(groups[k := groups[k].(count := groups[k].count + stat.count)])
         == Distinct(Endpoints(pre + [stat]))
  {
    var g' := groups[k := groups[k].(count := groups[k].count + stat.count)];
    EndpointsSnoc(pre, stat);
    assert EndpointNames(groups)[k] == stat.endpoint;
    DistinctSnoc(Endpoints(pre), stat.endpoint);
    assert EndpointNames(g') == EndpointNames(groups);
  }

  /** Adding to any one entry keeps the entries' sum the total of the statistics read so far. */
  lemma KnownEndpointSum(pre: seq<ApiStat>, stat: ApiStat, groups: seq<EndpointCount>, k: nat)
    requires SumCounts(groups) == TotalRequests(pre)
    requires k < |groups|
    ensures SumCounts(groups[k := groups[k].(count := groups[k].count + stat.count)]) == TotalRequests(pre + [stat])
  {
    EndpointsSnoc(pre, stat);
    SumCountsUpdate(groups, k, stat.count);
  }

  lemma GroupStepKnownEndpoint(pre: seq<ApiStat>, stat: ApiStat, groups: seq<EndpointCount>, k: nat)
    requires GroupsMatch(pre, groups)
    requires k < |groups| && groups[k].endpoint == stat.endpoint
    ensures GroupsMatch(pre + [stat], groups[k := groups[k].(count := groups[k].count + stat.count)])
  {
    KnownEndpointNames(pre, stat, groups, k);
    KnownEndpointSum(pre, stat, groups, k);
    KnownEndpointCounts(pre, stat, groups, k);
  }

  lemma GroupStepNewEndpoint(pre: seq<ApiStat>, stat: ApiStat, groups: seq<EndpointCount>)
    requires GroupsMatch(pre, groups)
    requires forall j :: 0 <= j < |groups| ==> groups[j].endpoint != stat.endpoint
    ensures GroupsMatch(pre + [stat], groups + [EndpointCount(stat.endpoint, stat.count)])
  {
    var post := pre + [stat];
    assert (pre + [stat])[..|pre|] == pre;
    assert Endpoints(post) == Endpoints(pre) + [stat.endpoint];
    assert Endpoints(post)[..|pre|] == Endpoints(pre);
    var names := EndpointNames(groups);
    assert stat.endpoint !in names;
    assert Distinct(Endpoints(post)) == Distinct(Endpoints(pre)) + [stat.endpoint];
    var g' := groups + [EndpointCount(stat.endpoint, stat.count)];
    SumCountsAppend(groups, EndpointCount(stat.endpoint, stat.count));
    assert TotalRequests(post) == TotalRequests(pre) + stat.count;
    assert EndpointNames(g') == names + [stat.endpoint];
    EndpointTotalAbsent(pre, stat.endpoint);
    forall i | 0 <= i < |g'| ensures g'[i].count == EndpointTotal(post, g'[i].endpoint) {
      EndpointTotalStep(pre, stat, g'[i].endpoint);
      if i < |groups| {
        assert names[i] != stat.endpoint;
      }
    }
  }

  /** An endpoint that no statistic names has a total of 0. */
  lemma {:induction false} EndpointTotalAbsent(stats: seq<ApiStat>, endpoint: string)
    requires endpoint !in Distinct(Endpoints(stats))
    ensures EndpointTotal(stats, endpoint) == 0
  {
    DistinctKeys(Endpoints(stats));
    if stats != [] {
      var init := stats[..|stats| - 1];
      assert Endpoints(init) == Endpoints(stats)[..|stats| - 1];
      DistinctKeys(Endpoints(init));
      assert endpoint != stats[|stats| - 1].endpoint;
      EndpointTotalAbsent(init, endpoint);
    }
  }

  // ---------------------------------------------------------------------------------------------
  // Top endpoints

  predicate SortedByCountDesc(groups: seq<EndpointCount>) {
    forall i, j :: 0 <= i < j < |groups| ==> groups[i].count >= groups[j].count
  }

  /** Insert `g` after every entry whose count is at least its own, where a stable sort places a later element. */
  function InsertByCount(sorted: seq<EndpointCount>, g: EndpointCount): seq<EndpointCount> {
    if sorted == [] || sorted[|sorted| - 1].count >= g.count then sorted + [g]
    else InsertByCount(sorted[..|sorted| - 1], g) + [sorted[|sorted| - 1]]
  }

  lemma {:induction false} InsertByCountPermutes(sorted: seq<EndpointCount>, g: EndpointCount)
    ensures multiset(InsertByCount(sorted, g)) == multiset(sorted) + multiset{g}
  {
    if !(sorted == [] || sorted[|sorted| - 1].count >= g.count) {
      var init, last := sorted[..|sorted| - 1], sorted[|sorted| - 1];
      assert sorted == init + [last];
      InsertByCountPermutes(init, g);
    }
  }

  /** Inserting keeps every count at or above a bound that all entries and the new one meet. */
  lemma {:induction false} InsertByCountBounded(sorted: seq<EndpointCount>, g: EndpointCount, bound: int)
    requires forall i :: 0 <= i < |sorted| ==> sorted[i].count >= bound
    requires g.count >= bound
    ensures forall i :: 0 <= i < |InsertByCount(sorted, g)| ==> InsertByCount(sorted, g)[i].count >= bound
  {
    if !(sorted == [] || sorted[|sorted| - 1].count >= g.count) {
      InsertByCountBounded(sorted[..|sorted| - 1], g, bound);
    }
  }

  lemma SortedSnoc(groups: seq<EndpointCount>, last: EndpointCount)
    requires SortedByCountDesc(groups)
    requires forall i :: 0 <= i < |groups| ==> groups[i].count >= last.count
    ensures SortedByCountDesc(groups + [last])
  {
  }

  lemma {:induction false} InsertByCountSorted(sorted: seq<EndpointCount>, g: EndpointCount)
    requires SortedByCountDesc(sorted)
    ensures SortedByCountDesc(InsertByCount(sorted, g))
  {
    if sorted == [] || sorted[|sorted| - 1].count >= g.count {
      SortedSnoc(sorted, g);
    } else {
      var init, last := sorted[..|sorted| - 1], sorted[|sorted| - 1];
      assert forall i :: 0 <= i < |init| ==> init[i] == sorted[i];
      InsertByCountSorted(init, g);
      InsertByCountBounded(init, g, last.count);
      SortedSnoc(InsertByCount(init, g), last);
    }
  }

  /** `.sort((a, b) => b.count - a.count)`: a stable sort by count, largest first. */
  function SortByCountDesc(groups: seq<EndpointCount>): (r: seq<EndpointCount>)
    ensures multiset(r) == multiset(groups)
    ensures SortedByCountDesc(r)
  {
    if groups == [] then []
    else
      var init, last := groups[..|groups| - 1], groups[|groups| - 1];
      assert groups == init + [last];
      var sortedInit := SortByCountDesc(init);
      InsertByCountPermutes(sortedInit, last);
      InsertByCountSorted(sortedInit, last);
      InsertByCount(sortedInit, last)
  }

  /** `topEndpoints`: the sorted entries, cut to the first five. */
  function TopEndpoints(groups: seq<EndpointCount>): (top: seq<EndpointCount>)
    ensures |top| == if |groups| < 5 then |groups| else 5
    ensures SortedByCountDesc(top)
    ensures forall g :: g in top ==> g in groups
  {
    var sorted := SortByCountDesc(groups);
    assert |multiset(sorted)| == |multiset(groups)|;
    var top := Take(sorted, 5);
    assert forall g :: g in top ==> g in multiset(sorted);
    top
  }

  /** The top list is the head of the sorted list, which holds exactly the grouping's entries. */
  lemma TopIsSortedHead(groups: seq<EndpointCount>)
    ensures var sorted := SortByCountDesc(groups);
      && |sorted| == |groups|
      && (forall g :: g in sorted <==> g in groups)
      && TopEndpoints(groups) == sorted[..|TopEndpoints(groups)|]
      && |TopEndpoints(groups)| == (if |groups| < 5 then |groups| else 5)
  {
    var sorted := SortByCountDesc(groups);
    assert |multiset(sorted)| == |multiset(groups)|;
    forall g ensures g in sorted <==> g in groups {
      assert g in sorted <==> g in multiset(sorted);
      assert g in groups <==> g in multiset(groups);
    }
  }

  /** With distinct endpoints in the grouping, the top list names each endpoint once. */
  lemma TopEndpointsDistinct(groups: seq<EndpointCount>)
    requires NoDuplicates(EndpointNames(groups))
    ensures NoDuplicates(EndpointNames(TopEndpoints(groups)))
  {
    TopIsSortedHead(groups);
    var sorted := SortByCountDesc(groups);
    var top := TopEndpoints(groups);
    PermutedNamesDistinct(groups, sorted);
    forall i, j | 0 <= i < j < |top| ensures top[i].endpoint != top[j].endpoint {
      assert sorted[i] == top[i] && sorted[j] == top[j];
      assert EndpointNames(sorted)[i] != EndpointNames(sorted)[j];
    }
  }

  /** Every entry left out of the top list counts no more than any entry kept. */
  lemma TopEndpointsAreTopmost(groups: seq<EndpointCount>)
    ensures var top := TopEndpoints(groups);
      forall g, h :: g in groups && g !in top && h in top ==> g.count <= h.count
  {
    TopIsSortedHead(groups);
    var sorted := SortByCountDesc(groups);
    var top := TopEndpoints(groups);
    CutIsTopmost(sorted, |top|);
    forall g, h | g in groups && g !in top && h in top ensures g.count <= h.count {
      assert sorted == top + sorted[|top|..];
      assert g in sorted;
      assert g in sorted[|top|..];
    }
  }

  /** A sequence holding one element twice holds it at least twice in its multiset. */
  lemma RepeatedElement(s: seq<EndpointCount>, i: nat, j: nat)
    requires i < j < |s|
    ensures s[i] == s[j] ==> multiset(s)[s[i]] >= 2
  {
    assert s == s[..j] + [s[j]] + s[j + 1..];
    assert s[i] in s[..j];
  }

  /** With distinct endpoints, every entry occurs once. */
  lemma {:induction false} GroupsOccurOnce(groups: seq<EndpointCount>)
    requires NoDuplicates(EndpointNames(groups))
    ensures forall g :: g in groups ==> multiset(groups)[g] == 1
  {
    if groups != [] {
      var init, last := groups[..|groups| - 1], groups[|groups| - 1];
      assert groups == init + [last];
      assert EndpointNames(init) == EndpointNames(groups)[..|groups| - 1];
      GroupsOccurOnce(init);
      forall i | 0 <= i < |init| ensures init[i] != last {
        assert EndpointNames(groups)[i] != EndpointNames(groups)[|groups| - 1];
      }
    }
  }

  /** Reordering entries with distinct endpoints keeps the endpoints distinct. */
  lemma PermutedNamesDistinct(groups: seq<EndpointCount>, sorted: seq<EndpointCount>)
    requires NoDuplicates(EndpointNames(groups))
    requires multiset(sorted) == multiset(groups)
    ensures NoDuplicates(EndpointNames(sorted))
  {
    GroupsOccurOnce(groups);
    forall i, j | 0 <= i < j < |sorted| ensures sorted[i].endpoint != sorted[j].endpoint {
      var a, b := sorted[i], sorted[j];
      assert a in multiset(groups) && b in multiset(groups);
      RepeatedElement(sorted, i, j);
      assert a != b;
      var p :| 0 <= p < |groups| && groups[p] == a;
      var q :| 0 <= q < |groups| && groups[q] == b;
      assert EndpointNames(groups)[p] == a.endpoint && EndpointNames(groups)[q] == b.endpoint;
    }
  }

  /** Every entry after the cut counts no more than any entry before it. */
  lemma CutIsTopmost(sorted: seq<EndpointCount>, n: nat)
    requires SortedByCountDesc(sorted) && n <= |sorted|
    ensures forall g, h :: g in sorted[n..] && h in sorted[..n] ==> g.count <= h.count
  {
    forall g, h | g in sorted[n..] && h in sorted[..n] ensures g.count <= h.count {
      var m :| 0 <= m < |sorted[n..]| && sorted[n..][m] == g;
      var l :| 0 <= l < n && sorted[..n][l] == h;
      assert sorted[l] == h && sorted[n + m] == g;
    }
  }

  /** The top list of a matching grouping holds each endpoint's true total, once per endpoint. */
  lemma TopHoldsTrueTotals(stats: seq<ApiStat>, groups: seq<EndpointCount>)
    requires GroupsMatch(stats, groups)
    ensures var top := TopEndpoints(groups);
      && NoDuplicates(EndpointNames(top))
      && (forall g :: g in top ==> g.endpoint in Endpoints(stats))
      && (forall g :: g in top ==> g.count == EndpointTotal(stats, g.endpoint))
  {
    var top := TopEndpoints(groups);
    DistinctKeys(Endpoints(stats));
    TopEndpointsDistinct(groups);
    forall g | g in top ensures g.count == EndpointTotal(stats, g.endpoint) && g.endpoint in Endpoints(stats) {
      var i :| 0 <= i < |groups| && groups[i] == g;
      assert EndpointNames(groups)[i] == g.endpoint;
    }
  }

  /** No endpoint the top list of a matching grouping leaves out had more requests than one it kept. */
  lemma TopHoldsBusiest(stats: seq<ApiStat>, groups: seq<EndpointCount>)
    requires GroupsMatch(stats, groups)
    ensures var top := TopEndpoints(groups);
      forall e, h :: e in Endpoints(stats) && e !in EndpointNames(top) && h in top ==> EndpointTotal(stats, e) <= h.count
  {
    var top := TopEndpoints(groups);
    DistinctKeys(Endpoints(stats));
    TopEndpointsAreTopmost(groups);
    forall e, h | e in Endpoints(stats) && e !in EndpointNames(top) && h in top
      ensures EndpointTotal(stats, e) <= h.count
    {
      assert e in EndpointNames(groups);
      var i :| 0 <= i < |groups| && groups[i].endpoint == e;
      var g := groups[i];
      forall j | 0 <= j < |top| ensures top[j] != g {
        assert EndpointNames(top)[j] != e;
      }
    }
  }

  /** `processApiStats`: total requests and the five busiest endpoints; a report without API statistics gives 0 and none. */
  method ProcessApiStats(data: Option<seq<ApiStat>>) returns (totalRequests: nat, topEndpoints: seq<EndpointCount>)
    ensures data.None? ==> totalRequests == 0 && topEndpoints == []
    ensures data.Some? ==> totalRequests == TotalRequests(data.value)
    ensures data.Some? ==> var n := |Distinct(Endpoints(data.value))|;
      |topEndpoints| == if n < 5 then n else 5
    ensures SortedByCountDesc(topEndpoints)
    ensures NoDuplicates(EndpointNames(topEndpoints))
    ensures data.Some? ==> forall g :: g in topEndpoints ==> g.endpoint in Endpoints(data.value)
    ensures data.Some? ==> forall g :: g in topEndpoints ==> g.count == EndpointTotal(data.value, g.endpoint)
    ensures data.Some? ==>
      forall e, h :: e in Endpoints(data.value) && e !in EndpointNames(topEndpoints) && h in topEndpoints
        ==> EndpointTotal(data.value, e) <= h.count
  {
    if data.None? {
      return 0, [];
    }
    var groups := GroupByEndpoint(data.value);
    totalRequests := TotalRequests(data.value);
    topEndpoints := TopEndpoints(groups);
    TopHoldsTrueTotals(data.value, groups);
    TopHoldsBusiest(data.value, groups);
  }
}
