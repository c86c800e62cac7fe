/** The project dashboard and the timeline: read-only aggregation over a
    project's work logs (totals, active days, average, per-user workload,
    per-day trend, running total, idle gaps, days left). */
module Dashboard {
  import opened Common
  import opened Users
  import opened Records
  import opened Access

  /** The logs of one project, each stored row exactly once, in store order. */
  function ProjectLogs(logs: seq<WorkLog>, pid: ProjectId): (r: seq<WorkLog>)
    ensures |r| <= |logs|
    ensures logs == [] ==> r == []
    ensures forall l :: l in r <==> l in logs && l.project == pid
  {
    if |logs| == 0 then []
    else (if logs[0].project == pid then [logs[0]] else []) + ProjectLogs(logs[1..], pid)
  }

  /** Each stored row of the project is selected exactly as often as it is
      stored (once, given the unique key), and no other row is selected. */
  lemma {:induction false} ProjectLogsCount(logs: seq<WorkLog>, pid: ProjectId)
    ensures forall l ::
      multiset(ProjectLogs(logs, pid))[l] == (if l.project == pid then multiset(logs)[l] else 0)
  {
    if logs != [] {
      assert logs == [logs[0]] + logs[1..];
      ProjectLogsCount(logs[1..], pid);
    }
  }

  /** Selecting a project's logs commutes with concatenation, so the
      selection keeps the relative order of the stored rows. */
  lemma {:induction false} ProjectLogsAppend(a: seq<WorkLog>, b: seq<WorkLog>, pid: ProjectId)
    ensures ProjectLogs(a + b, pid) == ProjectLogs(a, pid) + ProjectLogs(b, pid)
  {
    if a == [] {
      assert a + b == b;
    } else {
      assert (a + b)[1..] == a[1..] + b;
      ProjectLogsAppend(a[1..], b, pid);
    }
  }

  /** Sum of the hours of `logs`; 0 when there are none. */
  function TotalHours(logs: seq<WorkLog>): (r: Tenths)
    ensures logs == [] ==> r == 0
    ensures (forall i :: 0 <= i < |logs| ==> logs[i].hours >= 0) ==> r >= 0
  {
    if |logs| == 0 then 0
    else
      var rest := TotalHours(logs[1..]);
      assert (forall i :: 0 <= i < |logs| ==> logs[i].hours >= 0) ==>
        forall i :: 0 <= i < |logs| - 1 ==> logs[1..][i].hours >= 0;
      logs[0].hours + rest
  }

  /** The total of two runs of logs is the sum of their totals. */
  lemma {:induction false} TotalHoursAppend(a: seq<WorkLog>, b: seq<WorkLog>)
    ensures TotalHours(a + b) == TotalHours(a) + TotalHours(b)
  {
    if a == [] {
      assert a + b == b;
    } else {
      assert (a + b)[1..] == a[1..] + b;
      TotalHoursAppend(a[1..], b);
    }
  }

  /** The total grows by each log's hours, one log at a time. */
  lemma TotalHoursSnoc(logs: seq<WorkLog>)
    requires |logs| > 0
    ensures TotalHours(logs) == TotalHours(logs[..|logs| - 1]) + logs[|logs| - 1].hours
  {
    var n := |logs| - 1;
    assert logs == logs[..n] + [logs[n]];
    TotalHoursAppend(logs[..n], [logs[n]]);
    TotalHoursSingle(logs[n]);
  }

  /** The total depends only on which rows there are, not on their order,
      so the query's ordering of the logs cannot change it. */
  lemma {:induction false} TotalHoursPermutation(a: seq<WorkLog>, b: seq<WorkLog>)
    requires multiset(a) == multiset(b)
    ensures TotalHours(a) == TotalHours(b)
    decreases |a|
  {
    if a == [] {
      assert |b| == |multiset(b)| == 0;
    } else {
      assert a[0] in multiset(a);
      var k :| 0 <= k < |b| && b[k] == a[0];
      var rest := b[..k] + b[k + 1..];
      TotalHoursWithout(b, k);
      MultisetWithout(b, k);
      assert a == [a[0]] + a[1..];
      assert multiset(a[1..]) == multiset(a) - multiset{a[0]};
      TotalHoursPermutation(a[1..], rest);
    }
  }

  /** Taking one row out of a run of logs takes its hours off the total. */
  lemma TotalHoursWithout(b: seq<WorkLog>, k: nat)
    requires k < |b|
    ensures TotalHours(b) == b[k].hours + TotalHours(b[..k] + b[k + 1..])
  {
    var x, y := b[..k], b[k + 1..];
    assert b[k..] == [b[k]] + y;
    assert b == x + ([b[k]] + y);
    TotalHoursMiddle(x, b[k], y);
  }

  lemma TotalHoursMiddle(x: seq<WorkLog>, w: WorkLog, y: seq<WorkLog>)
    ensures TotalHours(x + ([w] + y)) == w.hours + TotalHours(x + y)
  {
    TotalHoursAppend(x, [w] + y);
    assert ([w] + y)[1..] == y;
    TotalHoursAppend(x, y);
  }

  lemma MultisetWithout(b: seq<WorkLog>, k: nat)
    requires k < |b|
    ensures multiset(b[..k] + b[k + 1..]) == multiset(b) - multiset{b[k]}
  {
    assert b == b[..k] + [b[k]] + b[k + 1..];
  }

  lemma TotalHoursSingle(w: WorkLog)
    ensures TotalHours([w]) == w.hours
  {
    assert [w][1..] == [];
  }

  /** The two columns the dashboard groups by. */
  datatype Grouping = ByDate | ByUser

  function GroupKey(l: WorkLog, g: Grouping): int
  {
    match g
    case ByDate => l.date
    case ByUser => l.user
  }

  /** The distinct values of a grouping column. */
  function KeysOf(logs: seq<WorkLog>, g: Grouping): set<int>
  {
    set l | l in logs :: GroupKey(l, g)
  }

  /** Sum of the hours of the logs in group `k`. */
  function HoursWhere(logs: seq<WorkLog>, g: Grouping, k: int): Tenths
  {
    if |logs| == 0 then 0
    else (if GroupKey(logs[0], g) == k then logs[0].hours else 0) + HoursWhere(logs[1..], g, k)
  }

  /** The group totals of the keys `ks`, added up. */
  function SumGroups(logs: seq<WorkLog>, g: Grouping, ks: seq<int>): Tenths
  {
    if |ks| == 0 then 0
    else SumGroups(logs, g, ks[..|ks| - 1]) + HoursWhere(logs, g, ks[|ks| - 1])
  }

  predicate NoDup(ks: seq<int>)
  {
    forall i, j :: 0 <= i < j < |ks| ==> ks[i] != ks[j]
  }

  /** What one log contributes to the group totals of `ks`. */
  function Contribution(l: WorkLog, g: Grouping, ks: seq<int>): Tenths
  {
    if |ks| == 0 then 0
    else Contribution(l, g, ks[..|ks| - 1]) + (if GroupKey(l, g) == ks[|ks| - 1] then l.hours else 0)
  }

  lemma {:induction false} ContributionAbsent(l: WorkLog, g: Grouping, ks: seq<int>)
    requires GroupKey(l, g) !in ks
    ensures Contribution(l, g, ks) == 0
  {
    if |ks| > 0 {
      ContributionAbsent(l, g, ks[..|ks| - 1]);
    }
  }

  lemma {:induction false} ContributionOnce(l: WorkLog, g: Grouping, ks: seq<int>)
    requires NoDup(ks) && GroupKey(l, g) in ks
    ensures Contribution(l, g, ks) == l.hours
  {
    var init := ks[..|ks| - 1];
    if GroupKey(l, g) == ks[|ks| - 1] {
      assert GroupKey(l, g) !in init;
      ContributionAbsent(l, g, init);
    } else {
      ContributionOnce(l, g, init);
    }
  }

  /** Peeling the first log off every group total of `ks`. */
  lemma {:induction false} SumGroupsSplit(logs: seq<WorkLog>, g: Grouping, ks: seq<int>)
    requires |logs| > 0
    ensures SumGroups(logs, g, ks) == Contribution(logs[0], g, ks) + SumGroups(logs[1..], g, ks)
  {
    if |ks| > 0 {
      SumGroupsSplit(logs, g, ks[..|ks| - 1]);
    }
  }

  lemma {:induction false} SumGroupsOfNothing(g: Grouping, ks: seq<int>)
    ensures SumGroups([], g, ks) == 0
  {
    if |ks| > 0 {
      SumGroupsOfNothing(g, ks[..|ks| - 1]);
    }
  }

  /** Grouping loses no hours: the totals of a duplicate-free list of keys
      that covers every group add up to the overall total. */
  lemma {:induction false} PartitionSum(logs: seq<WorkLog>, g: Grouping, ks: seq<int>)
    requires NoDup(ks)
    requires KeysOf(logs, g) <= Elems(ks)
    ensures SumGroups(logs, g, ks) == TotalHours(logs)
  {
    if |logs| == 0 {
      SumGroupsOfNothing(g, ks);
    } else {
      SumGroupsSplit(logs, g, ks);
      assert GroupKey(logs[0], g) in KeysOf(logs, g);
      ContributionOnce(logs[0], g, ks);
      assert KeysOf(logs[1..], g) <= KeysOf(logs, g) by {
        forall k | k in KeysOf(logs[1..], g) ensures k in KeysOf(logs, g) {
          var l :| l in logs[1..] && GroupKey(l, g) == k;
          assert l in logs;
        }
      }
      PartitionSum(logs[1..], g, ks);
    }
  }

  /** The distinct dates of `logs`; `active_days` is their number. */
  function Dates(logs: seq<WorkLog>): set<Day>
  {
    KeysOf(logs, ByDate)
  }

  function ActiveDays(logs: seq<WorkLog>): (r: nat)
    ensures r <= |logs|
    ensures r == 0 <==> logs == []
  {
    KeysOfBound(logs, ByDate);
    assert logs != [] ==> logs[0] in logs && GroupKey(logs[0], ByDate) in KeysOf(logs, ByDate);
    |Dates(logs)|
  }

  /** A grouping has no more groups than there are logs. */
  lemma {:induction false} KeysOfBound(logs: seq<WorkLog>, g: Grouping)
    ensures |KeysOf(logs, g)| <= |logs|
  {
    if |logs| > 0 {
      var init := logs[..|logs| - 1];
      KeysOfBound(init, g);
      assert KeysOf(logs, g) == KeysOf(init, g) + {GroupKey(logs[|logs| - 1], g)} by {
        forall k | k in KeysOf(logs, g) ensures k in KeysOf(init, g) + {GroupKey(logs[|logs| - 1], g)} {
          var l :| l in logs && GroupKey(l, g) == k;
          var i :| 0 <= i < |logs| && logs[i] == l;
          if i < |logs| - 1 {
            assert init[i] == l;
          }
        }
      }
    }
  }

  /** `x` inserted into a strictly increasing sequence, keeping it so. */
  function InsertSorted(s: seq<int>, x: int): (r: seq<int>)
    requires StrictlyIncreasing(s)
    ensures StrictlyIncreasing(r)
    ensures Elems(r) == Elems(s) + {x}
  {
    if |s| == 0 then [x]
    else if x < s[0] then
      InsertFront(s, x);
      [x] + s
    else if x == s[0] then
      assert s[0] in Elems(s);
      s
    else
      TailIncreasing(s);
      var t := InsertSorted(s[1..], x);
      InsertAfterHead(s, x, t);
      [s[0]] + t
  }

  lemma TailIncreasing(s: seq<int>)
    requires StrictlyIncreasing(s) && |s| > 0
    ensures StrictlyIncreasing(s[1..])
  {
    forall i, j | 0 <= i < j < |s| - 1 ensures s[1..][i] < s[1..][j] {
      assert s[1..][i] == s[i + 1] && s[1..][j] == s[j + 1];
    }
  }

  /** A value below the head goes in front. */
  lemma InsertFront(s: seq<int>, x: int)
    requires StrictlyIncreasing(s) && |s| > 0 && x < s[0]
    ensures StrictlyIncreasing([x] + s)
    ensures Elems([x] + s) == Elems(s) + {x}
  {
    var u := [x] + s;
    forall i, j | 0 <= i < j < |u| ensures u[i] < u[j] {
      assert u[j] == s[j - 1];
      if i > 0 {
        assert u[i] == s[i - 1];
      } else if j > 1 {
        assert s[0] < s[j - 1];
      }
    }
    assert Elems(u) == {x} + Elems(s);
  }

  /** A value above the head goes into the tail. */
  lemma InsertAfterHead(s: seq<int>, x: int, t: seq<int>)
    requires StrictlyIncreasing(s) && |s| > 0 && s[0] < x
    requires StrictlyIncreasing(t) && Elems(t) == Elems(s[1..]) + {x}
    ensures StrictlyIncreasing([s[0]] + t)
    ensures Elems([s[0]] + t) == Elems(s) + {x}
  {
    forall e | e in Elems(t) ensures s[0] < e {
      if e != x {
        var k :| 0 <= k < |s[1..]| && s[1..][k] == e;
        assert s[k + 1] == e;
      }
    }
    ConsIncreasing(s[0], t);
    assert s == [s[0]] + s[1..];
    assert Elems(s) == {s[0]} + Elems(s[1..]);
    assert Elems([s[0]] + t) == {s[0]} + Elems(t);
  }

  /** Putting a smaller value in front keeps a sequence strictly increasing. */
  lemma ConsIncreasing(a: int, t: seq<int>)
    requires StrictlyIncreasing(t)
    requires forall e :: e in Elems(t) ==> a < e
    ensures StrictlyIncreasing([a] + t)
  {
    var u := [a] + t;
    forall i, j | 0 <= i < j < |u| ensures u[i] < u[j] {
      assert u[j] == t[j - 1] && t[j - 1] in Elems(t);
      if i > 0 {
        assert u[i] == t[i - 1];
      }
    }
  }

  /** `sorted(set(l.date for l in logs))`. */
  function SortedDates(logs: seq<WorkLog>): (r: seq<Day>)
    ensures StrictlyIncreasing(r)
    ensures Elems(r) == Dates(logs)
  {
    if |logs| == 0 then []
    else
      var r := InsertSorted(SortedDates(logs[1..]), logs[0].date);
      assert Dates(logs) == Dates(logs[1..]) + {logs[0].date} by {
        forall k | k in Dates(logs) ensures k in Dates(logs[1..]) + {logs[0].date} {
          var l :| l in logs && l.date == k;
          if l != logs[0] {
            assert l in logs[1..];
          }
        }
        forall k | k in Dates(logs[1..]) ensures k in Dates(logs) {
          var l :| l in logs[1..] && l.date == k;
          assert l in logs;
        }
        assert logs[0] in logs;
      }
      r
  }

  lemma NoDupOfIncreasing(s: seq<int>)
    requires StrictlyIncreasing(s)
    ensures NoDup(s)
  {
  }

  /** One entry of the per-day trend: a date and the hours logged on it. */
  datatype DayTotal = DayTotal(date: Day, total: Tenths)

  function TrendDates(t: seq<DayTotal>): (r: seq<Day>)
    ensures |r| == |t| && forall i :: 0 <= i < |t| ==> r[i] == t[i].date
  {
    seq(|t|, i requires 0 <= i < |t| => t[i].date)
  }

  /** `daily_trend`: per distinct date, ascending, that date's hours. */
  function DailyTrend(logs: seq<WorkLog>): (r: seq<DayTotal>)
    ensures |r| == ActiveDays(logs)
    ensures StrictlyIncreasing(TrendDates(r))
    ensures Elems(TrendDates(r)) == Dates(logs)
    ensures forall i :: 0 <= i < |r| ==> r[i].total == HoursWhere(logs, ByDate, r[i].date)
  {
    var ds := SortedDates(logs);
    StrictlyIncreasingCard(ds);
    var r := seq(|ds|, i requires 0 <= i < |ds| => DayTotal(ds[i], HoursWhere(logs, ByDate, ds[i])));
    assert TrendDates(r) == ds;
    r
  }

  /** The total of the first `n` entries of a trend. */
  function PrefixTotal(t: seq<DayTotal>, n: nat): Tenths
    requires n <= |t|
  {
    if n == 0 then 0 else PrefixTotal(t, n - 1) + t[n - 1].total
  }

  lemma PrefixTotalIsSumGroups(logs: seq<WorkLog>, n: nat)
    requires n <= |DailyTrend(logs)|
    ensures PrefixTotal(DailyTrend(logs), n) == SumGroups(logs, ByDate, TrendDates(DailyTrend(logs))[..n])
  {
    TrendPrefixIsSumGroups(logs, DailyTrend(logs), n);
  }

  /** Any per-day table whose entries hold their date's hours: its first `n`
      entries add up to the hours of their dates. */
  lemma {:induction false} TrendPrefixIsSumGroups(logs: seq<WorkLog>, t: seq<DayTotal>, n: nat)
    requires forall i :: 0 <= i < |t| ==> t[i].total == HoursWhere(logs, ByDate, t[i].date)
    requires n <= |t|
    ensures PrefixTotal(t, n) == SumGroups(logs, ByDate, TrendDates(t)[..n])
  {
    if n > 0 {
      var ds := TrendDates(t);
      TrendPrefixIsSumGroups(logs, t, n - 1);
      assert ds[..n][..n - 1] == ds[..n - 1];
      assert ds[..n][n - 1] == t[n - 1].date;
    }
  }

  /** The per-day totals add up to the total hours. */
  lemma TrendSumsToTotal(logs: seq<WorkLog>)
    ensures PrefixTotal(DailyTrend(logs), |DailyTrend(logs)|) == TotalHours(logs)
  {
    var t := DailyTrend(logs);
    var ds := TrendDates(t);
    PrefixTotalIsSumGroups(logs, |t|);
    assert ds[..|t|] == ds;
    NoDupOfIncreasing(ds);
    PartitionSum(logs, ByDate, ds);
  }

  /** The users who logged hours, and `workload_by_user`: each one's hours. */
  function LoggingUsers(logs: seq<WorkLog>): set<UserId>
  {
    set l | l in logs :: l.user
  }

  function WorkloadByUser(logs: seq<WorkLog>): (m: map<UserId, Tenths>)
    ensures m.Keys == LoggingUsers(logs)
    ensures forall u :: u in m ==> m[u] == HoursWhere(logs, ByUser, u)
  {
    map u | u in LoggingUsers(logs) :: HoursWhere(logs, ByUser, u)
  }

  /** The workload entries of `us`, added up. */
  function SumWorkload(m: map<UserId, Tenths>, us: seq<UserId>): Tenths
    requires forall i :: 0 <= i < |us| ==> us[i] in m
  {
    if |us| == 0 then 0 else SumWorkload(m, us[..|us| - 1]) + m[us[|us| - 1]]
  }

  lemma {:induction false} SumWorkloadIsSumGroups(logs: seq<WorkLog>, us: seq<UserId>)
    requires forall i :: 0 <= i < |us| ==> us[i] in LoggingUsers(logs)
    ensures SumWorkload(WorkloadByUser(logs), us) == SumGroups(logs, ByUser, us)
  {
    if |us| > 0 {
      SumWorkloadIsSumGroups(logs, us[..|us| - 1]);
    }
  }

  /** Every user's share listed once: the shares add up to the total hours,
      and each share is the sum of that user's logs. */
  lemma WorkloadSumsToTotal(logs: seq<WorkLog>, us: seq<UserId>)
    requires forall i, j :: 0 <= i < j < |us| ==> us[i] != us[j]
    requires Elems(us) == WorkloadByUser(logs).Keys
    ensures SumWorkload(WorkloadByUser(logs), us) == TotalHours(logs)
    ensures forall u :: u in WorkloadByUser(logs) ==> WorkloadByUser(logs)[u] == HoursWhere(logs, ByUser, u)
  {
    SumWorkloadIsSumGroups(logs, us);
    assert KeysOf(logs, ByUser) <= Elems(us) by {
      forall k | k in KeysOf(logs, ByUser) ensures k in Elems(us) {
        var l :| l in logs && GroupKey(l, ByUser) == k;
        assert l.user in LoggingUsers(logs);
      }
    }
    PartitionSum(logs, ByUser, us);
  }

  /** `round(total / active_days, 1)` on the exact ratio: the quotient
      `n / d` rounded to the nearest integer, ties to the even one. */
  function RoundHalfEven(n: int, d: int): (r: int)
    requires d > 0
    ensures -d <= 2 * (n - r * d) <= d
    ensures (2 * (n - r * d) == d || 2 * (n - r * d) == -d) ==> r % 2 == 0
  {
    var q := n / d;
    var rem := n % d;
    DivisionFacts(n, d);
    if 2 * rem < d then q
    else if 2 * rem > d then q + 1
    else if q % 2 == 0 then q
    else
      assert (q + 1) % 2 == 0;
      q + 1
  }

  /** Euclidean division: the remainder left by `n / d` and by one more. */
  lemma DivisionFacts(n: int, d: int)
    requires d > 0
    ensures 0 <= n % d < d
    ensures n - (n / d) * d == n % d
    ensures n - (n / d + 1) * d == n % d - d
  {
    var q := n / d;
    assert n == q * d + n % d;
    assert (q + 1) * d == q * d + d;
  }

  /** The rounding contract pins the result down: no other integer meets it. */
  lemma RoundHalfEvenUnique(n: int, d: int, r: int)
    requires d > 0
    requires -d <= 2 * (n - r * d) <= d
    requires (2 * (n - r * d) == d || 2 * (n - r * d) == -d) ==> r % 2 == 0
    ensures r == RoundHalfEven(n, d)
  {
    var s := RoundHalfEven(n, d);
    var e := r - s;
    var p := (r - s) * d;
    MulDiff(r, s, d);
    assert 2 * (n - s * d) - 2 * (n - r * d) == 2 * p;
    if e >= 2 {
      MulAtLeast(e, d);
    } else if e <= -2 {
      MulAtLeast(-e, d);
    } else if e == 1 || e == -1 {
      MulUnit(e, d);
    }
  }

  /** How far apart two multiples of `d` are. */
  lemma MulDiff(r: int, s: int, d: int)
    ensures r * d - s * d == (r - s) * d
  {
  }

  lemma MulUnit(e: int, d: int)
    requires e == 1 || e == -1
    ensures e * d == (if e == 1 then d else -d)
  {
  }

  lemma MulAtLeast(e: int, d: int)
    requires e >= 2 && d > 0
    ensures e * d >= 2 * d && (-e) * d <= -2 * d
  {
  }

  /** `avg_daily_hours` in tenths: 0 without active days, otherwise the
      total over the active days rounded half-even to a tenth of an hour. */
  function AvgDailyHours(total: Tenths, activeDays: nat): (r: Tenths)
    ensures activeDays == 0 ==> r == 0
    ensures activeDays > 0 ==> -(activeDays as int) <= 2 * (total - r * activeDays) <= activeDays
    ensures activeDays > 0 ==>
      (2 * (total - r * activeDays) == activeDays || 2 * (total - r * activeDays) == -(activeDays as int))
      ==> r % 2 == 0
  {
    if activeDays == 0 then 0 else RoundHalfEven(total, activeDays)
  }

  /** `days_left`: completion date minus today, negative when overdue, and
      absent when the completion date is. */
  function DaysLeft(completion: Option<Day>, today: Day): (r: Option<int>)
    ensures r.None? <==> completion.None?
    ensures r.Some? ==> today + r.value == completion.value
    ensures r.Some? ==> (r.value < 0 <==> completion.value < today)
  {
    match completion
    case None => None
    case Some(c) => Some(c - today)
  }

  /** One point of the running total. */
  datatype CumulativePoint = CumulativePoint(date: Day, cumulative: Tenths)

  /** The loop building `cumulative`: each point adds that day's hours to
      the previous point. */
  method CumulativeSeries(trend: seq<DayTotal>) returns (c: seq<CumulativePoint>)
    ensures |c| == |trend|
    ensures forall i :: 0 <= i < |c| ==> c[i].date == trend[i].date
    ensures forall i :: 0 <= i < |c| ==> c[i].cumulative == PrefixTotal(trend, i + 1)
    ensures |c| > 0 ==> c[0].cumulative == trend[0].total
    ensures forall i :: 0 < i < |c| ==> c[i].cumulative == c[i - 1].cumulative + trend[i].total
  {
    c := [];
    var running := 0;
    for i := 0 to |trend|
      invariant |c| == i
      invariant running == PrefixTotal(trend, i)
      invariant forall k :: 0 <= k < i ==> c[k].date == trend[k].date
      invariant forall k :: 0 <= k < i ==> c[k].cumulative == PrefixTotal(trend, k + 1)
    {
      running := running + trend[i].total;
      c := c + [CumulativePoint(trend[i].date, running)];
    }
  }

  /** An idle gap: the days strictly between two consecutive active days. */
  datatype IdleGap = IdleGap(from: Day, to: Day, days: int)

  function GapBetween(a: Day, b: Day): seq<IdleGap>
  {
    if b - a - 1 > 0 then [IdleGap(a + 1, b - 1, b - a - 1)] else []
  }

  /** The gaps of a date list, pair by adjacent pair, left to right. */
  function Gaps(ds: seq<Day>): seq<IdleGap>
  {
    if |ds| < 2 then [] else Gaps(ds[..|ds| - 1]) + GapBetween(ds[|ds| - 2], ds[|ds| - 1])
  }

  /** The loop building `idle_days` over the sorted distinct dates. */
  method IdleDays(dates: seq<Day>) returns (gaps: seq<IdleGap>)
    ensures gaps == Gaps(dates)
    ensures |dates| < 2 ==> gaps == []
  {
    gaps := [];
    if |dates| < 2 {
      return;
    }
    for i := 1 to |dates|
      invariant gaps == Gaps(dates[..i])
    {
      var gap := dates[i] - dates[i - 1] - 1;
      if gap > 0 {
        gaps := gaps + [IdleGap(dates[i - 1] + 1, dates[i] - 1, gap)];
      }
      assert dates[..i + 1][..i] == dates[..i];
    }
    assert dates[..|dates|] == dates;
  }

  /** The record a pair of adjacent dates more than a day apart yields: it
      spans from the day after the first to the day before the second and
      counts those days. */
  function PairGap(ds: seq<Day>, i: int): IdleGap
    requires 1 <= i < |ds|
  {
    IdleGap(ds[i - 1] + 1, ds[i] - 1, ds[i] - ds[i - 1] - 1)
  }

  /** Every gap record comes from an adjacent pair more than a day apart. */
  lemma {:induction false} GapsComeFromPairs(ds: seq<Day>)
    ensures forall j :: 0 <= j < |Gaps(ds)| ==>
      exists i :: 1 <= i < |ds| && ds[i] - ds[i - 1] > 1 && Gaps(ds)[j] == PairGap(ds, i)
  {
    if |ds| >= 2 {
      var init := ds[..|ds| - 1];
      GapsComeFromPairs(init);
      var gs := Gaps(init);
      forall j | 0 <= j < |Gaps(ds)|
        ensures exists i :: 1 <= i < |ds| && ds[i] - ds[i - 1] > 1 && Gaps(ds)[j] == PairGap(ds, i)
      {
        if j < |gs| {
          assert 0 <= j < |Gaps(init)|;
          assert exists i :: 1 <= i < |init| && init[i] - init[i - 1] > 1 && Gaps(init)[j] == PairGap(init, i);
          var i :| 1 <= i < |init| && init[i] - init[i - 1] > 1 && gs[j] == PairGap(init, i);
          assert PairGap(init, i) == PairGap(ds, i);
          assert Gaps(ds)[j] == gs[j];
        } else {
          assert Gaps(ds)[j] == PairGap(ds, |ds| - 1);
        }
      }
    } else {
      assert Gaps(ds) == [];
    }
  }

  /** Every adjacent pair more than a day apart yields a gap record. */
  lemma {:induction false} PairsYieldGaps(ds: seq<Day>)
    ensures forall i :: 1 <= i < |ds| && ds[i] - ds[i - 1] > 1 ==> PairGap(ds, i) in Gaps(ds)
  {
    if |ds| >= 2 {
      var init := ds[..|ds| - 1];
      PairsYieldGaps(init);
      forall i | 1 <= i < |ds| && ds[i] - ds[i - 1] > 1
        ensures PairGap(ds, i) in Gaps(ds)
      {
        if i < |ds| - 1 {
          assert PairGap(init, i) == PairGap(ds, i);
        }
      }
    }
  }

  /** Every record covers at least one day and counts exactly the days
      from `from` to `to`. */
  lemma {:induction false} GapsWellShaped(ds: seq<Day>)
    ensures forall j :: 0 <= j < |Gaps(ds)| ==>
      Gaps(ds)[j].days >= 1 && Gaps(ds)[j].days == Gaps(ds)[j].to - Gaps(ds)[j].from + 1
  {
    if |ds| >= 2 {
      var init := ds[..|ds| - 1];
      GapsWellShaped(init);
      var gs := Gaps(init);
      forall j | 0 <= j < |Gaps(ds)|
        ensures Gaps(ds)[j].days >= 1 && Gaps(ds)[j].days == Gaps(ds)[j].to - Gaps(ds)[j].from + 1
      {
        if j < |gs| {
          assert Gaps(ds)[j] == gs[j];
        } else {
          assert Gaps(ds)[j] == PairGap(ds, |ds| - 1);
        }
      }
    }
  }

  /** A day lies inside one of the gaps. */
  ghost predicate InSomeGap(gs: seq<IdleGap>, d: Day)
  {
    exists j :: 0 <= j < |gs| && gs[j].from <= d <= gs[j].to
  }

  /** Gaps stay strictly between the first and the last active day. */
  lemma {:induction false} GapsInsideSpan(ds: seq<Day>)
    requires StrictlyIncreasing(ds) && |ds| >= 1
    ensures forall j :: 0 <= j < |Gaps(ds)| ==>
      ds[0] < Gaps(ds)[j].from <= Gaps(ds)[j].to < ds[|ds| - 1]
  {
    if |ds| >= 2 {
      var init := ds[..|ds| - 1];
      GapsInsideSpan(init);
    }
  }

  /** The gaps are exactly the idle days of the span: between the first and
      the last active day, a day is in some gap if and only if nothing was
      logged on it. */
  lemma {:induction false} GapsCoverIdleDays(ds: seq<Day>)
    requires StrictlyIncreasing(ds) && |ds| >= 1
    ensures forall d :: ds[0] <= d <= ds[|ds| - 1] ==> (InSomeGap(Gaps(ds), d) <==> d !in ds)
  {
    if |ds| >= 2 {
      var init := ds[..|ds| - 1];
      var a := ds[|ds| - 2];
      var b := ds[|ds| - 1];
      GapsCoverIdleDays(init);
      GapsInsideSpan(init);
      var gs := Gaps(init);
      var all := Gaps(ds);
      assert all == gs + GapBetween(a, b);
      forall d | ds[0] <= d <= b
        ensures InSomeGap(all, d) <==> d !in ds
      {
        assert d in ds <==> d in init || d == b;
        if d <= a {
          assert d != b;
          if InSomeGap(all, d) {
            var j :| 0 <= j < |all| && all[j].from <= d <= all[j].to;
            assert j < |gs|;
            assert InSomeGap(gs, d);
          }
          if InSomeGap(gs, d) {
            var j :| 0 <= j < |gs| && gs[j].from <= d <= gs[j].to;
            assert all[j] == gs[j];
          }
        } else if d < b {
          assert d !in init;
          assert all[|gs|] == IdleGap(a + 1, b - 1, b - a - 1);
        }
      }
    }
  }

  /** The total of the gaps' day counts. */
  function GapDays(gs: seq<IdleGap>): int
  {
    if |gs| == 0 then 0 else GapDays(gs[..|gs| - 1]) + gs[|gs| - 1].days
  }

  lemma {:induction false} GapDaysAppend(gs: seq<IdleGap>, hs: seq<IdleGap>)
    ensures GapDays(gs + hs) == GapDays(gs) + GapDays(hs)
  {
    if |hs| > 0 {
      GapDaysAppend(gs, hs[..|hs| - 1]);
      assert (gs + hs)[..|gs + hs| - 1] == gs + hs[..|hs| - 1];
    } else {
      assert gs + hs == gs;
    }
  }

  /** Active days and idle days together fill the span from the first to
      the last active day. */
  lemma {:induction false} GapDaysFillSpan(ds: seq<Day>)
    requires StrictlyIncreasing(ds) && |ds| >= 1
    ensures GapDays(Gaps(ds)) + |ds| == ds[|ds| - 1] - ds[0] + 1
  {
    if |ds| >= 2 {
      var init := ds[..|ds| - 1];
      GapDaysFillSpan(init);
      GapDaysAppend(Gaps(init), GapBetween(ds[|ds| - 2], ds[|ds| - 1]));
    }
  }

  /** The dashboard's figures for one project. */
  datatype Snapshot = Snapshot(
    totalHours: Tenths,
    avgDailyHours: Tenths,
    activeDays: nat,
    daysLeft: Option<int>,
    workloadByUser: map<UserId, Tenths>,
    dailyTrend: seq<DayTotal>,
    cumulative: seq<CumulativePoint>,
    idleDays: seq<IdleGap>)

  lemma NoLogsNoWorkload(logs: seq<WorkLog>)
    ensures logs == [] ==> WorkloadByUser(logs) == map[]
  {
    if logs == [] {
      assert WorkloadByUser(logs).Keys == {};
    }
  }

  /** The date-ordered figures of the dashboard: the per-day trend, its
      running total and the idle gaps between logged dates. */
  method TrendFigures(logs: seq<WorkLog>)
    returns (trend: seq<DayTotal>, cumulative: seq<CumulativePoint>, idle: seq<IdleGap>)
    ensures |trend| == ActiveDays(logs) == |Dates(logs)|
    ensures StrictlyIncreasing(TrendDates(trend)) && Elems(TrendDates(trend)) == Dates(logs)
    ensures forall i :: 0 <= i < |trend| ==> trend[i].total == HoursWhere(logs, ByDate, trend[i].date)
    ensures PrefixTotal(trend, |trend|) == TotalHours(logs)
    ensures |cumulative| == |trend|
    ensures forall i :: 0 <= i < |cumulative| ==> cumulative[i].date == trend[i].date
    ensures forall i :: 0 <= i < |cumulative| ==> cumulative[i].cumulative == PrefixTotal(trend, i + 1)
    ensures |cumulative| > 0 ==> cumulative[|cumulative| - 1].cumulative == TotalHours(logs)
    ensures idle == Gaps(TrendDates(trend))
    ensures logs == [] ==> trend == [] && cumulative == [] && idle == []
  {
    trend := DailyTrend(logs);
    TrendSumsToTotal(logs);
    cumulative := CumulativeSeries(trend);
    idle := IdleDays(TrendDates(trend));
  }

  /** The dashboard view: `None` is the 404 for an unknown project. */
  method ProjectDashboard(s: Store, pid: ProjectId, today: Day) returns (r: Option<Snapshot>)
    ensures r.None? <==> pid !in s.projects
    ensures r.Some? ==>
      var logs := ProjectLogs(s.logs, pid);
      var v := r.value;
      && v.totalHours == TotalHours(logs)
      && v.activeDays == |Dates(logs)| == |v.dailyTrend|
      && v.avgDailyHours == AvgDailyHours(v.totalHours, v.activeDays)
      && v.daysLeft == Some(s.projects[pid].completionDate - today)
      && v.workloadByUser.Keys == LoggingUsers(logs)
      && (forall u :: u in v.workloadByUser ==> v.workloadByUser[u] == HoursWhere(logs, ByUser, u))
      && StrictlyIncreasing(TrendDates(v.dailyTrend))
      && Elems(TrendDates(v.dailyTrend)) == Dates(logs)
      && (forall i :: 0 <= i < |v.dailyTrend| ==>
            v.dailyTrend[i].total == HoursWhere(logs, ByDate, v.dailyTrend[i].date))
      && PrefixTotal(v.dailyTrend, |v.dailyTrend|) == v.totalHours
      && |v.cumulative| == |v.dailyTrend|
      && (forall i :: 0 <= i < |v.cumulative| ==> v.cumulative[i].date == v.dailyTrend[i].date)
      && (forall i :: 0 <= i < |v.cumulative| ==>
            v.cumulative[i].cumulative == PrefixTotal(v.dailyTrend, i + 1))
      && (|v.cumulative| > 0 ==> v.cumulative[|v.cumulative| - 1].cumulative == v.totalHours)
      && v.idleDays == Gaps(TrendDates(v.dailyTrend))
    ensures r.Some? && ProjectLogs(s.logs, pid) == [] ==>
      var v := r.value;
      v.totalHours == 0 && v.activeDays == 0 && v.avgDailyHours == 0
      && v.workloadByUser == map[] && v.dailyTrend == [] && v.cumulative == [] && v.idleDays == []
  {
    if pid !in s.projects {
      return None;
    }
    var logs := ProjectLogs(s.logs, pid);
    var total := TotalHours(logs);
    var active := ActiveDays(logs);
    var trend, cumulative, idle := TrendFigures(logs);
    var left := DaysLeft(Some(s.projects[pid].completionDate), today);
    assert left == Some(s.projects[pid].completionDate - today);
    NoLogsNoWorkload(logs);
    r := Some(Snapshot(total, AvgDailyHours(total, active), active,
                       left, WorkloadByUser(logs), trend, cumulative, idle));
  }

  /** One project's line on the timeline. */
  datatype TimelineRow = TimelineRow(totalHours: Tenths, activeDays: nat, daysLeft: Option<int>)

  /** The timeline as intended: a row for every project the viewer may list,
      with the same total and active-day figures as that project's
      dashboard. */
  function Timeline(viewer: User, s: Store, today: Day): (rows: map<ProjectId, TimelineRow>)
    ensures rows.Keys == VisibleProjects(viewer, s.projects)
    ensures forall id :: id in rows ==>
      && rows[id].totalHours == TotalHours(ProjectLogs(s.logs, id))
      && rows[id].activeDays == |Dates(ProjectLogs(s.logs, id))|
      && rows[id].daysLeft == Some(s.projects[id].completionDate - today)
  {
    map id | id in VisibleProjects(viewer, s.projects) ::
      TimelineRow(TotalHours(ProjectLogs(s.logs, id)), ActiveDays(ProjectLogs(s.logs, id)),
                  DaysLeft(Some(s.projects[id].completionDate), today))
  }

  /** The timeline page as the view builds it: the rendered list is the
      queryset `ListView` fetched before `get_context_data` runs, while the
      figures are set on the instances of a second, separate query, so every
      listed project reaches the page without them. */
  function TimelineAsWritten(viewer: User, s: Store): (rows: map<ProjectId, Option<TimelineRow>>)
    ensures rows.Keys == VisibleProjects(viewer, s.projects)
    ensures forall id :: id in rows ==> rows[id].None?
  {
    map id | id in VisibleProjects(viewer, s.projects) :: None
  }

  /** The discrepancy: every listed project lacks on the page the figures the
      intended timeline gives it. */
  lemma TimelineLosesFigures(viewer: User, s: Store, today: Day, id: ProjectId)
    requires id in VisibleProjects(viewer, s.projects)
    ensures id in TimelineAsWritten(viewer, s) && id in Timeline(viewer, s, today)
    ensures TimelineAsWritten(viewer, s)[id] != Some(Timeline(viewer, s, today)[id])
    ensures Timeline(viewer, s, today)[id].totalHours == TotalHours(ProjectLogs(s.logs, id))
  {
  }

  /** Worked examples: logs on days 1, 3 and 7 leave gaps 2..2 and 4..6, and
      daily totals 2, 3, 5 accumulate to 2, 5, 10. */
  lemma GapsExample()
    ensures Gaps([1, 3, 7]) == [IdleGap(2, 2, 1), IdleGap(4, 6, 3)]
  {
    assert [1, 3, 7][..2] == [1, 3];
    assert [1, 3][..1] == [1];
  }

  lemma CumulativeExample()
    ensures var t := [DayTotal(1, 2), DayTotal(2, 3), DayTotal(3, 5)];
      PrefixTotal(t, 1) == 2 && PrefixTotal(t, 2) == 5 && PrefixTotal(t, 3) == 10
  {
  }
}
