/** The admin dashboard of `getDashboard`: record counts, the number of users and posts created
    on each of the last 30 UTC days, the average number of posts per user and the busiest day.
    Times are milliseconds since the epoch and days are day numbers since the epoch (UTC), so a
    `YYYY-MM-DD` key is a day number here. */
module Dashboard {
  import opened Wrappers
  import opened Seqs
  import opened Store

  const Days := 30
  const MsPerDay := 86400000

  /** The UTC day a time falls on. */
  function DayOf(t: int): (r: int)
    ensures r * MsPerDay <= t < (r + 1) * MsPerDay
  {
    t / MsPerDay
  }

  /** The window's first day: the day 29 days before today's, which starts at midnight UTC. */
  function WindowStartDay(now: int): (r: int)
    ensures r * MsPerDay <= now < (r + Days) * MsPerDay
    ensures (r + Days - 1) * MsPerDay <= now
  {
    DayOf(now) - (Days - 1)
  }

  // ---------------------------------------------------------------------------------------------
  // The per-day aggregation

  /** One entry of a per-day series or of the aggregation's output. */
  datatype DayCount = DayCount(day: int, count: nat)

  predicate DistinctDays(agg: seq<DayCount>) {
    forall i, j :: 0 <= i < j < |agg| ==> agg[i].day != agg[j].day
  }

  /** `agg.find(x => x._id === key)` and then `u ? u.count : 0`. */
  function CountFor(agg: seq<DayCount>, day: int): nat {
    match FirstMatch(agg, (x: DayCount) => x.day == day)
    case None => 0
    case Some(k) => agg[k].count
  }

  /** With distinct days, the count found for a day is that of the day's entry, if any. */
  lemma CountForEntry(agg: seq<DayCount>, day: int, k: nat)
    requires DistinctDays(agg) && k < |agg| && agg[k].day == day
    ensures CountFor(agg, day) == agg[k].count
  {
    var m := FirstMatch(agg, (x: DayCount) => x.day == day);
    assert m.Some?;
  }

  /** One more record on `day`: that day's entry goes up by one, or a new entry starts at one. */
  function Bump(agg: seq<DayCount>, day: int): seq<DayCount> {
    match FirstMatch(agg, (x: DayCount) => x.day == day)
    case None => agg + [DayCount(day, 1)]
    case Some(k) => agg[k := DayCount(day, agg[k].count + 1)]
  }

  /** A bump keeps the days distinct and adds one to the count of its day only. */
  lemma BumpCounts(agg: seq<DayCount>, day: int)
    requires DistinctDays(agg)
    ensures DistinctDays(Bump(agg, day))
    ensures forall e :: CountFor(Bump(agg, day), e) == CountFor(agg, e) + (if e == day then 1 else 0)
  {
    var r := Bump(agg, day);
    var m := FirstMatch(agg, (x: DayCount) => x.day == day);
    forall e ensures CountFor(r, e) == CountFor(agg, e) + (if e == day then 1 else 0) {
      var me := FirstMatch(agg, (x: DayCount) => x.day == e);
      if e == day {
        if m.None? {
          CountForEntry(r, e, |agg|);
        } else {
          CountForEntry(agg, e, m.value);
          CountForEntry(r, e, m.value);
        }
      } else if me.None? {
        assert forall j :: 0 <= j < |r| ==> r[j].day != e;
      } else {
        CountForEntry(agg, e, me.value);
        CountForEntry(r, e, me.value);
      }
    }
  }

  /** The `$group` stage: one entry per day that occurs, counting its occurrences. */
  function Tally(days: seq<int>): (r: seq<DayCount>)
    ensures DistinctDays(r)
    ensures forall e :: CountFor(r, e) == multiset(days)[e]
  {
    if days == [] then []
    else
      var n := |days| - 1;
      assert days == days[..n] + [days[n]];
      BumpCounts(Tally(days[..n]), days[n]);
      Bump(Tally(days[..n]), days[n])
  }

  /** The `$match` stage and the grouping key: the days of the times from `startMs` on. */
  function DaysFrom(times: seq<int>, startMs: int): seq<int> {
    if times == [] then []
    else (if times[0] >= startMs then [DayOf(times[0])] else []) + DaysFrom(times[1..], startMs)
  }

  /** How many of the times fall on `day`. */
  function OnDay(times: seq<int>, day: int): nat {
    if times == [] then 0 else (if DayOf(times[0]) == day then 1 else 0) + OnDay(times[1..], day)
  }

  /** On a day of the window, the `$match` stage drops nothing of that day. */
  lemma {:induction false} DaysFromCounts(times: seq<int>, startDay: int, day: int)
    ensures multiset(DaysFrom(times, startDay * MsPerDay))[day] == if day >= startDay then OnDay(times, day) else 0
  {
    if times != [] {
      DaysFromCounts(times[1..], startDay, day);
      var head := if times[0] >= startDay * MsPerDay then [DayOf(times[0])] else [];
      assert multiset(DaysFrom(times, startDay * MsPerDay)) ==
        multiset(head) + multiset(DaysFrom(times[1..], startDay * MsPerDay));
      if times[0] >= startDay * MsPerDay {
        assert DayOf(times[0]) >= startDay;
      } else {
        assert DayOf(times[0]) < startDay;
      }
    }
  }

  /** The aggregation pipeline: records created from `startMs` on, grouped by day. */
  function Aggregate(times: seq<int>, startMs: int): seq<DayCount> {
    Tally(DaysFrom(times, startMs))
  }

  /** The aggregation's count for a day of the window is the number of records created that day;
      it has nothing for an earlier day. */
  lemma AggregateCounts(times: seq<int>, startDay: int)
    ensures forall day :: CountFor(Aggregate(times, startDay * MsPerDay), day) ==
                          (if day >= startDay then OnDay(times, day) else 0)
  {
    forall day ensures CountFor(Aggregate(times, startDay * MsPerDay), day) ==
      if day >= startDay then OnDay(times, day) else 0
    {
      DaysFromCounts(times, startDay, day);
    }
  }

  /** The 30 days from `startDay` in order, each with the number of times on it. */
  function DenseSeries(times: seq<int>, startDay: int): (r: seq<DayCount>)
    ensures |r| == Days
    ensures forall i :: 0 <= i < Days ==> r[i].day == startDay + i && r[i].count == OnDay(times, startDay + i)
  {
    seq(Days, i => DayCount(startDay + i, OnDay(times, startDay + i)))
  }

  /** A dense series read off an aggregation that counts each day of the window right has, for
      each of its days, the number of records created that day. */
  lemma SeriesCounts(times: seq<int>, startDay: int, agg: seq<DayCount>, series: seq<DayCount>)
    requires forall day :: day >= startDay ==> CountFor(agg, day) == OnDay(times, day)
    requires |series| == Days
    requires forall i :: 0 <= i < Days ==> series[i] == DayCount(startDay + i, CountFor(agg, startDay + i))
    ensures series == DenseSeries(times, startDay)
  {
    var dense := DenseSeries(times, startDay);
    assert forall i :: 0 <= i < Days ==> series[i] == dense[i];
  }

  // ---------------------------------------------------------------------------------------------
  // The dense series

  /** The series loop: for each of the 30 days from `startDay`, one entry per series with that
      day's aggregated count, or 0 when the aggregation has no entry for it. */
  method NormalizeSeries(usersAgg: seq<DayCount>, postsAgg: seq<DayCount>, startDay: int)
    returns (usersByDay: seq<DayCount>, postsByDay: seq<DayCount>)
    ensures |usersByDay| == Days && |postsByDay| == Days
    ensures forall i :: 0 <= i < Days ==> usersByDay[i] == DayCount(startDay + i, CountFor(usersAgg, startDay + i))
    ensures forall i :: 0 <= i < Days ==> postsByDay[i] == DayCount(startDay + i, CountFor(postsAgg, startDay + i))
  {
    usersByDay, postsByDay := [], [];
    var i := 0;
    while i < Days
      invariant 0 <= i <= Days
      invariant |usersByDay| == i && |postsByDay| == i
      invariant forall k :: 0 <= k < i ==> usersByDay[k] == DayCount(startDay + k, CountFor(usersAgg, startDay + k))
      invariant forall k :: 0 <= k < i ==> postsByDay[k] == DayCount(startDay + k, CountFor(postsAgg, startDay + k))
    {
      var key := startDay + i;
      var u := FirstMatch(usersAgg, (x: DayCount) => x.day == key);
      var p := FirstMatch(postsAgg, (x: DayCount) => x.day == key);
      usersByDay := usersByDay + [DayCount(key, if u.Some? then usersAgg[u.value].count else 0)];
      postsByDay := postsByDay + [DayCount(key, if p.Some? then postsAgg[p.value].count else 0)];
      i := i + 1;
    }
  }

  // ---------------------------------------------------------------------------------------------
  // The analysis

  /** `+(posts / users).toFixed(2)` in hundredths, on the exact quotient: the nearest hundredth,
      halves rounded up; 0 when there are no users. */
  function AvgHundredths(posts: nat, users: nat): (r: nat)
    ensures users == 0 ==> r == 0
    ensures users > 0 ==> 2 * users * r - users <= 200 * posts < 2 * users * r + users
  {
    if users == 0 then 0
    else
      var n := 200 * posts + users;
      var d := 2 * users;
      var q := n / d;
      assert n == d * q + n % d && 0 <= n % d < d;
      q
  }

  /** The accumulator of the peak `reduce`; the seed is `{ date: null, count: 0 }`. */
  datatype PeakDay = PeakDay(date: Option<int>, count: nat)

  const Seed := PeakDay(None, 0)

  /** One step of the reducer: the new entry replaces the peak only when its count is greater. */
  function PeakStep(a: PeakDay, b: DayCount): PeakDay {
    if b.count > a.count then PeakDay(Some(b.day), b.count) else a
  }

  /** `series.reduce(PeakStep, Seed)`: the peak count is the series' greatest, and the seed is
      left in place exactly when every count is 0. */
  function Peak(series: seq<DayCount>): (r: PeakDay)
    ensures forall i :: 0 <= i < |series| ==> series[i].count <= r.count
    ensures r.date.None? <==> r.count == 0
    ensures r == Seed <==> forall i :: 0 <= i < |series| ==> series[i].count == 0
  {
    if series == [] then Seed
    else
      var n := |series| - 1;
      var a := Peak(series[..n]);
      assert forall i :: 0 <= i < n ==> series[..n][i] == series[i];
      PeakStep(a, series[n])
  }

  /** The peak day is the first day that has the greatest count. */
  lemma {:induction false} PeakIsEarliestMaximum(series: seq<DayCount>) returns (i: nat)
    requires Peak(series).date.Some?
    ensures i < |series| && series[i] == DayCount(Peak(series).date.value, Peak(series).count)
    ensures forall j :: 0 <= j < i ==> series[j].count < Peak(series).count
  {
    var n := |series| - 1;
    var a := Peak(series[..n]);
    assert forall k :: 0 <= k < n ==> series[..n][k] == series[k];
    if series[n].count > a.count {
      i := n;
    } else {
      i := PeakIsEarliestMaximum(series[..n]);
    }
  }

  // ---------------------------------------------------------------------------------------------
  // getDashboard

  datatype Summary = Summary(
    users: nat,
    posts: nat,
    comments: nat,
    notifications: nat,
    usersByDay: seq<DayCount>,
    postsByDay: seq<DayCount>,
    avgPostsPerUser: nat,
    peakUserDay: PeakDay,
    peakPostDay: PeakDay)

  /** The `createdAt` field of each record of a collection, in store order. */
  function CreationTimes<T>(records: seq<T>, createdAt: T -> int): (r: seq<int>)
    ensures |r| == |records| && forall i :: 0 <= i < |records| ==> r[i] == createdAt(records[i])
  {
    if records == [] then [] else [createdAt(records[0])] + CreationTimes(records[1..], createdAt)
  }

  function UserCreatedAt(u: User): int { u.createdAt }

  function PostCreatedAt(p: PostModel.Post): int { p.createdAt }

  /** `getDashboard` at time `now`: the counts of the four collections; for each of the 30 days
      ending today, in order, the number of users and of posts created that day; the average
      number of posts per user in hundredths; and the first day with the most sign-ups and the
      first with the most posts. */
  method GetDashboard(db: Db, now: int) returns (s: Summary)
    ensures s.users == |db.users| && s.posts == |db.posts|
    ensures s.comments == |db.comments| && s.notifications == |db.notifications|
    ensures |s.usersByDay| == Days && |s.postsByDay| == Days
    ensures s.usersByDay == DenseSeries(CreationTimes(db.users, UserCreatedAt), WindowStartDay(now))
    ensures s.postsByDay == DenseSeries(CreationTimes(db.posts, PostCreatedAt), WindowStartDay(now))
    ensures s.avgPostsPerUser == AvgHundredths(|db.posts|, |db.users|)
    ensures s.peakUserDay == Peak(s.usersByDay) && s.peakPostDay == Peak(s.postsByDay)
  {
    var startDay := WindowStartDay(now);
    var startMs := startDay * MsPerDay;
    var usersAgg := Aggregate(CreationTimes(db.users, UserCreatedAt), startMs);
    var postsAgg := Aggregate(CreationTimes(db.posts, PostCreatedAt), startMs);
    var usersByDay, postsByDay := NormalizeSeries(usersAgg, postsAgg, startDay);
    AggregateCounts(CreationTimes(db.users, UserCreatedAt), startDay);
    AggregateCounts(CreationTimes(db.posts, PostCreatedAt), startDay);
    SeriesCounts(CreationTimes(db.users, UserCreatedAt), startDay, usersAgg, usersByDay);
    SeriesCounts(CreationTimes(db.posts, PostCreatedAt), startDay, postsAgg, postsByDay);
    s := Summary(|db.users|, |db.posts|, |db.comments|, |db.notifications|, usersByDay, postsByDay,
      AvgHundredths(|db.posts|, |db.users|), Peak(usersByDay), Peak(postsByDay));
  }
}
